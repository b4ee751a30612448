/** The in-memory progress hub of internal/engine/progress.go: per-domain replay buffers,
    run generations, retention timers and subscriber channels.

    `HubState` is the hub as a value and the `...Step` functions are its critical sections; the
    class `ProgressHub` is the mutex-protected object itself, each method proved against its step.
    Channels and pending retention timers belong to the Go runtime; here they are fields beside
    the hub's own three maps, so that a send, a close and a timer firing are visible.  */
module Progress {
  type Domain = string
  type ChanId = nat

  const REPLAY_LIMIT := 200
  const CHANNEL_CAPACITY := 256
  /** `gen` is a uint64 counter. */
  const GENERATIONS: nat := 0x1_0000_0000_0000_0000
  /** Go's zero `time.Time`: an event carrying it has not been stamped yet. */
  const ZERO_TIME := 0

  datatype Event = Event(step: string, status: string, detail: string, percent: int, run: nat, time: int) {
    predicate Terminal() {
      status == "error" || percent >= 100
    }
  }

  /** A retention timer captures the domain and the generation it was scheduled for. */
  datatype Timer = Timer(domain: Domain, gen: nat)

  datatype Chan = Chan(queue: seq<Event>, closed: bool)

  datatype HubState = HubState(
    buffers: map<Domain, seq<Event>>,
    subs: map<Domain, set<ChanId>>,
    gen: map<Domain, nat>,
    chans: map<ChanId, Chan>,
    timers: seq<Timer>)
  {
    function GenOf(d: Domain): nat { if d in gen then gen[d] else 0 }

    function BufferOf(d: Domain): seq<Event> { if d in buffers then buffers[d] else [] }

    function SubsOf(d: Domain): set<ChanId> { if d in subs then subs[d] else {} }
  }

  const EmptyHub := HubState(map[], map[], map[], map[], [])

  /** The last `n` elements, or all of them when there are fewer. */
  function LastN<T>(s: seq<T>, n: nat): seq<T> {
    if |s| > n then s[|s| - n..] else s
  }

  function Stamp(h: HubState, d: Domain, ev: Event, now: int): Event {
    ev.(time := if ev.time == ZERO_TIME then now else ev.time,
        status := if ev.status == "" then "running" else ev.status,
        run := h.GenOf(d))
  }

  /** A non-blocking send: a full channel drops the event. */
  function Offer(c: Chan, e: Event): Chan {
    if |c.queue| < CHANNEL_CAPACITY then c.(queue := c.queue + [e]) else c
  }

  function FanOut(chans: map<ChanId, Chan>, targets: set<ChanId>, e: Event): map<ChanId, Chan> {
    map c | c in chans :: if c in targets then Offer(chans[c], e) else chans[c]
  }

  // The critical sections.

  function BeginStep(h: HubState, d: Domain): HubState {
    h.(buffers := h.buffers - {d}, gen := h.gen[d := (h.GenOf(d) + 1) % GENERATIONS])
  }

  function EmitStep(h: HubState, d: Domain, ev: Event, now: int): HubState {
    var e := Stamp(h, d, ev, now);
    h.(buffers := h.buffers[d := LastN(h.BufferOf(d) + [e], REPLAY_LIMIT)],
       chans := FanOut(h.chans, h.SubsOf(d), e),
       timers := if e.Terminal() then h.timers + [Timer(d, h.GenOf(d))] else h.timers)
  }

  function ForgetStep(h: HubState, d: Domain, g: nat): HubState {
    if h.GenOf(d) != g then h
    else h.(buffers := h.buffers - {d}, gen := h.gen - {d},
            subs := if h.SubsOf(d) == {} then h.subs - {d} else h.subs)
  }

  /** Pending timer `i` fires: it leaves the timer queue and runs `forget`. */
  function FireStep(h: HubState, i: nat): HubState
    requires i < |h.timers|
  {
    ForgetStep(h.(timers := h.timers[..i] + h.timers[i + 1..]), h.timers[i].domain, h.timers[i].gen)
  }

  function SubscribeStep(h: HubState, d: Domain, c: ChanId): HubState {
    h.(subs := h.subs[d := h.SubsOf(d) + {c}], chans := h.chans[c := Chan([], false)])
  }

  function CancelStep(h: HubState, d: Domain, c: ChanId): HubState
    requires c in h.SubsOf(d) ==> c in h.chans
  {
    var left := h.SubsOf(d) - {c};
    h.(subs := if left == {} then h.subs - {d} else h.subs[d := left],
       chans := if c in h.SubsOf(d) then h.chans[c := h.chans[c].(closed := true)] else h.chans)
  }

  /** A consumer takes the oldest unread event from its channel. */
  function ReceiveStep(h: HubState, c: ChanId): HubState
    requires c in h.chans && h.chans[c].queue != []
  {
    h.(chans := h.chans[c := h.chans[c].(queue := h.chans[c].queue[1..])])
  }

  datatype Step =
    | Begin(domain: Domain)
    | Emit(domain: Domain, event: Event, now: int)
    | Fire(timer: nat)
    | Subscribe(domain: Domain, chan: ChanId)
    | Cancel(domain: Domain, chan: ChanId)
    | Receive(chan: ChanId)

  /** What the runtime offers: a pending timer may fire, a new channel is a new one, a cancel
      function exists only for a channel that was made, a consumer receives what is queued. */
  predicate Enabled(h: HubState, s: Step) {
    match s
    case Begin(_) => true
    case Emit(_, _, _) => true
    case Fire(i) => i < |h.timers|
    case Subscribe(_, c) => c !in h.chans
    case Cancel(_, c) => c in h.chans
    case Receive(c) => c in h.chans && h.chans[c].queue != []
  }

  function Next(h: HubState, s: Step): HubState
    requires Enabled(h, s)
  {
    match s
    case Begin(d) => BeginStep(h, d)
    case Emit(d, ev, now) => EmitStep(h, d, ev, now)
    case Fire(i) => FireStep(h, i)
    case Subscribe(d, c) => SubscribeStep(h, d, c)
    case Cancel(d, c) => CancelStep(h, d, c)
    case Receive(c) => ReceiveStep(h, c)
  }

  /** What every critical section keeps: subscriber channels exist and are open, a channel belongs
      to one domain, nothing outgrows its bound, and a buffered event carries the current run id. */
  ghost predicate WellFormed(h: HubState) {
    && Routed(h.subs, h.chans)
    && (forall c :: c in h.chans ==> |h.chans[c].queue| <= CHANNEL_CAPACITY)
    && (forall d :: d in h.buffers ==> Stamped(h.buffers[d], h.GenOf(d)))
  }

  ghost predicate Routed(subs: map<Domain, set<ChanId>>, chans: map<ChanId, Chan>) {
    && (forall d, c :: d in subs && c in subs[d] ==> c in chans && !chans[c].closed)
    && (forall d, d', c :: d in subs && d' in subs && c in subs[d] && c in subs[d'] ==> d == d')
    && (forall d :: d in subs ==> subs[d] != {})
  }

  ghost predicate Stamped(buf: seq<Event>, g: nat) {
    |buf| <= REPLAY_LIMIT && forall k :: 0 <= k < |buf| ==> buf[k].run == g
  }

  lemma EmitWellFormed(h: HubState, d: Domain, ev: Event, now: int)
    requires WellFormed(h)
    ensures WellFormed(EmitStep(h, d, ev, now))
  {
  }

  lemma BeginWellFormed(h: HubState, d: Domain)
    requires WellFormed(h)
    ensures WellFormed(BeginStep(h, d))
  {
  }

  lemma ForgetWellFormed(h: HubState, d: Domain, g: nat)
    requires WellFormed(h)
    ensures WellFormed(ForgetStep(h, d, g))
  {
  }

  lemma SubscribeWellFormed(h: HubState, d: Domain, c: ChanId)
    requires WellFormed(h) && c !in h.chans
    ensures WellFormed(SubscribeStep(h, d, c))
  {
    var h' := SubscribeStep(h, d, c);
    assert forall x :: x in h'.subs && x != d ==> h'.subs[x] == h.subs[x];
  }

  lemma CancelWellFormed(h: HubState, d: Domain, c: ChanId)
    requires WellFormed(h) && c in h.chans
    ensures WellFormed(CancelStep(h, d, c))
  {
    var h' := CancelStep(h, d, c);
    assert forall x :: x in h'.subs && x != d ==> h'.subs[x] == h.subs[x];
  }

  lemma NextWellFormed(h: HubState, s: Step)
    requires WellFormed(h) && Enabled(h, s)
    ensures WellFormed(Next(h, s))
  {
    match s
    case Emit(d, ev, now) => EmitWellFormed(h, d, ev, now);
    case Begin(d) => BeginWellFormed(h, d);
    case Fire(i) => ForgetWellFormed(h.(timers := h.timers[..i] + h.timers[i + 1..]), h.timers[i].domain, h.timers[i].gen);
    case Subscribe(d, c) => SubscribeWellFormed(h, d, c);
    case Cancel(d, c) => CancelWellFormed(h, d, c);
    case Receive(c) =>
  }

  /** A channel is closed at most once, and nothing is queued on it afterwards. */
  lemma ClosedStaysClosed(h: HubState, s: Step, c: ChanId)
    requires WellFormed(h) && Enabled(h, s) && c in h.chans && h.chans[c].closed
    ensures c in Next(h, s).chans && Next(h, s).chans[c].closed
    ensures s != Receive(c) ==> Next(h, s).chans[c] == h.chans[c]
  {
  }

  /** What an emission does, event by event: the stamped event ends a buffer that loses its oldest beyond
      200, and every subscriber with room gets it. */
  lemma EmitOutcome(h: HubState, d: Domain, ev: Event, now: int)
    ensures var h' := Next(h, Step.Emit(d, ev, now));
      var e := Event(ev.step, if ev.status == "" then "running" else ev.status, ev.detail, ev.percent,
                     if d in h.gen then h.gen[d] else 0, if ev.time == 0 then now else ev.time);
      var buf := (if d in h.buffers then h.buffers[d] else []) + [e];
      && h'.buffers == h.buffers[d := if |buf| > 200 then buf[|buf| - 200..] else buf]
      && h'.timers == h.timers + (if ev.status == "error" || ev.percent >= 100 then [Timer(d, e.run)] else [])
      && h'.subs == h.subs && h'.gen == h.gen && h'.chans.Keys == h.chans.Keys
      && forall c :: c in h.chans ==>
        h'.chans[c] == if d in h.subs && c in h.subs[d] && |h.chans[c].queue| < 256
                       then Chan(h.chans[c].queue + [e], h.chans[c].closed) else h.chans[c]
  {
  }

  /** A run begins on an empty buffer and under the next number, and nothing else changes. */
  lemma BeginOutcome(h: HubState, d: Domain)
    ensures var h' := Next(h, Step.Begin(d));
      && d !in h'.buffers && h'.buffers == h.buffers - {d}
      && h'.gen == h.gen[d := if d in h.gen then (h.gen[d] + 1) % 0x1_0000_0000_0000_0000 else 1]
      && h'.subs == h.subs && h'.chans == h.chans && h'.timers == h.timers
  {
  }

  /** A timer of the current number frees buffer and counter, any other leaves only the queue. */
  lemma FireOutcome(h: HubState, i: nat)
    requires WellFormed(h) && i < |h.timers|
    ensures var h' := Next(h, Step.Fire(i)); var t := h.timers[i];
      && h'.timers == h.timers[..i] + h.timers[i + 1..] && h'.subs == h.subs && h'.chans == h.chans
      && if (if t.domain in h.gen then h.gen[t.domain] else 0) == t.gen
         then h'.buffers == h.buffers - {t.domain} && h'.gen == h.gen - {t.domain}
         else h'.buffers == h.buffers && h'.gen == h.gen
  {
  }

  /** A subscription adds a new open channel to the domain's, and a cancellation removes and closes one. */
  lemma SubscriptionOutcome(h: HubState, d: Domain, c: ChanId)
    requires WellFormed(h) && c !in h.chans
    ensures var h' := Next(h, Subscribe(d, c));
      && h'.chans == h.chans[c := Chan([], false)] && (h'.buffers, h'.gen, h'.timers) == (h.buffers, h.gen, h.timers)
      && forall x, k :: x in h'.subs && k in h'.subs[x] <==> (x in h.subs && k in h.subs[x]) || (x == d && k == c)
  {
    var h' := Next(h, Subscribe(d, c));
    assert forall x :: x != d ==> (x in h'.subs <==> x in h.subs) && (x in h.subs ==> h'.subs[x] == h.subs[x]);
    assert h'.SubsOf(d) == h.SubsOf(d) + {c};
  }

  lemma CancellationOutcome(h: HubState, d: Domain, c: ChanId)
    requires WellFormed(h) && c in h.chans
    ensures var h' := Next(h, Cancel(d, c)); var listed := d in h.subs && c in h.subs[d];
      && h'.chans == (if listed then h.chans[c := Chan(h.chans[c].queue, true)] else h.chans)
      && (h'.buffers, h'.gen, h'.timers) == (h.buffers, h.gen, h.timers)
      && forall x, k :: x in h'.subs && k in h'.subs[x] <==> x in h.subs && k in h.subs[x] && !(x == d && k == c)
  {
    var h' := Next(h, Cancel(d, c));
    assert forall x :: x != d ==> (x in h'.subs <==> x in h.subs) && (x in h.subs ==> h'.subs[x] == h.subs[x]);
    assert h'.SubsOf(d) == h.SubsOf(d) - {c};
  }

  class ProgressHub {
    var buffers: map<Domain, seq<Event>>
    var subs: map<Domain, set<ChanId>>
    var gen: map<Domain, nat>
    var chans: map<ChanId, Chan>
    var timers: seq<Timer>
    var made: nat  // channels made so far; the next channel's identity

    function State(): HubState reads this {
      HubState(buffers, subs, gen, chans, timers)
    }

    ghost predicate Valid() reads this {
      WellFormed(State()) && forall c :: c in chans ==> c < made
    }

    constructor ()
      ensures Valid() && State() == EmptyHub
    {
      buffers, subs, gen, chans, timers, made := map[], map[], map[], map[], [], 0;
    }

    method Begin(domain: Domain)
      requires Valid()
      modifies this
      ensures Valid() && State() == BeginStep(old(State()), domain)
    {
      ghost var before := State();
      buffers := buffers - {domain};
      gen := gen[domain := ((if domain in gen then gen[domain] else 0) + 1) % GENERATIONS];
      BeginWellFormed(before, domain);
    }

    /** `select { case ch <- ev: default: }`. Go panics when the channel is closed. */
    method TrySend(ch: ChanId, ev: Event)
      requires ch in chans && !chans[ch].closed
      modifies `chans
      ensures chans == old(chans)[ch := Offer(old(chans)[ch], ev)]
      ensures chans[ch].queue == old(chans)[ch].queue + if |old(chans)[ch].queue| < CHANNEL_CAPACITY then [ev] else []
    {
      if |chans[ch].queue| < CHANNEL_CAPACITY {
        chans := chans[ch := chans[ch].(queue := chans[ch].queue + [ev])];
      }
    }

    /** `close(c)`. Go panics when the channel is already closed. */
    method Close(ch: ChanId)
      requires ch in chans && !chans[ch].closed
      modifies `chans
      ensures chans == old(chans)[ch := old(chans)[ch].(closed := true)]
    {
      chans := chans[ch := chans[ch].(closed := true)];
    }

    /** The fan-out loop of Emit, still inside its critical section. */
    method Broadcast(targets: set<ChanId>, ev: Event)
      requires forall c :: c in targets ==> c in chans && !chans[c].closed
      modifies `chans
      ensures chans == FanOut(old(chans), targets, ev)
      ensures chans.Keys == old(chans).Keys && forall c :: c in chans ==> chans[c].closed == old(chans)[c].closed
      ensures forall c :: c in chans && (c !in targets || |old(chans)[c].queue| >= CHANNEL_CAPACITY) ==> chans[c] == old(chans)[c]
      ensures forall c :: c in targets && |old(chans)[c].queue| < CHANNEL_CAPACITY ==> chans[c].queue == old(chans)[c].queue + [ev]
    {
      var todo := targets;
      while todo != {}
        invariant todo <= targets
        invariant chans == FanOut(old(chans), targets - todo, ev)
      {
        var ch :| ch in todo;
        TrySend(ch, ev);
        todo := todo - {ch};
      }
      assert targets - todo == targets;
    }

    method Emit(domain: Domain, event: Event, now: int)
      requires Valid()
      modifies this
      ensures Valid() && State() == EmitStep(old(State()), domain, event, now)
      ensures timers == old(timers) +
                if event.status == "error" || event.percent >= 100
                then [Timer(domain, if domain in gen then gen[domain] else 0)] else []
    {
      EmitWellFormed(State(), domain, event, now);
      var ev := event;
      if ev.time == ZERO_TIME {
        ev := ev.(time := now);
      }
      if ev.status == "" {
        ev := ev.(status := "running");
      }
      ev := ev.(run := if domain in gen then gen[domain] else 0);
      assert ev == Stamp(State(), domain, event, now);
      Record(domain, ev);
    }

    /** Emit's critical section on the stamped event, and the retention timer after it. */
    method Record(domain: Domain, ev: Event)
      requires Routed(subs, chans)
      modifies `buffers, `chans, `timers
      ensures buffers == old(buffers)[domain := LastN(old(State()).BufferOf(domain) + [ev], REPLAY_LIMIT)]
      ensures chans == FanOut(old(chans), State().SubsOf(domain), ev)
      ensures timers == if ev.Terminal() then old(timers) + [Timer(domain, State().GenOf(domain))] else old(timers)
    {
      var buf := (if domain in buffers then buffers[domain] else []) + [ev];
      if |buf| > REPLAY_LIMIT {
        buf := buf[|buf| - REPLAY_LIMIT..];
      }
      buffers := buffers[domain := buf];
      Broadcast(if domain in subs then subs[domain] else {}, ev);
      if ev.Terminal() {
        timers := timers + [Timer(domain, if domain in gen then gen[domain] else 0)];
      }
    }

    method Forget(domain: Domain, g: nat)
      requires Valid()
      modifies this
      ensures Valid() && State() == ForgetStep(old(State()), domain, g)
    {
      if (if domain in gen then gen[domain] else 0) != g {
        return;
      }
      buffers := buffers - {domain};
      gen := gen - {domain};
      if (if domain in subs then subs[domain] else {}) == {} {
        subs := subs - {domain};
      }
    }

    /** The runtime fires pending timer `i`. */
    method FireTimer(i: nat)
      requires Valid() && i < |timers|
      modifies this
      ensures Valid() && State() == FireStep(old(State()), i)
    {
      var t := timers[i];
      timers := timers[..i] + timers[i + 1..];
      Forget(t.domain, t.gen);
    }

    method Subscribe(domain: Domain) returns (replay: seq<Event>, ch: ChanId)
      requires Valid()
      modifies this
      ensures Valid() && ch !in old(chans)
      ensures replay == old(State()).BufferOf(domain)
      ensures State() == SubscribeStep(old(State()), domain, ch)
    {
      ghost var before := State();
      replay := if domain in buffers then buffers[domain] else [];
      ch := made;
      made := made + 1;
      chans := chans[ch := Chan([], false)];
      if domain !in subs {
        subs := subs[domain := {}];
      }
      subs := subs[domain := subs[domain] + {ch}];
      assert subs == before.subs[domain := before.SubsOf(domain) + {ch}];
      SubscribeWellFormed(before, domain, ch);
    }

    /** The cancel function returned by Subscribe; calling it again is harmless. */
    method Cancel(domain: Domain, ch: ChanId)
      requires Valid() && ch in chans
      modifies this
      ensures Valid() && State() == CancelStep(old(State()), domain, ch)
    {
      ghost var before := State();
      if domain in subs && ch in subs[domain] {
        subs := subs[domain := subs[domain] - {ch}];
        Close(ch);
      }
      if (if domain in subs then subs[domain] else {}) == {} {
        subs := subs - {domain};
      }
      ghost var left := before.SubsOf(domain) - {ch};
      assert ch !in before.SubsOf(domain) ==> left == before.SubsOf(domain);
      assert left == {} ==> subs == before.subs - {domain};
      assert left != {} ==> subs == before.subs[domain := left];
      CancelWellFormed(before, domain, ch);
    }
  }
}
