/** Retention timers against run generations (internal/engine/progress.go).

    `forget` deletes the generation counter together with the buffer, so generation numbers are
    used again and a timer's number alone does not say which run scheduled it. `Book` keeps the
    history the code does not: a unique number for every run, which run scheduled each pending
    timer, and whether the current run has emitted its terminal event. */
module ProgressRuns {
  import opened Progress

  datatype Pending = Pending(domain: Domain, gen: nat, run: nat)

  datatype Book = Book(
    gen: map<Domain, nat>,    // the hub's own counters
    pending: seq<Pending>,    // the hub's timers, each with the run that scheduled it
    run: map<Domain, nat>,    // the unique number of the domain's current run; 0 before the first
    ended: set<Domain>,       // domains whose current run has emitted a terminal event
    nextRun: nat)
  {
    function GenOf(d: Domain): nat { if d in gen then gen[d] else 0 }

    function RunOf(d: Domain): nat { if d in run then run[d] else 0 }

    predicate Clears(i: nat)
      requires i < |pending|
    {
      GenOf(pending[i].domain) == pending[i].gen
    }
  }

  const EmptyBook := Book(map[], [], map[], {}, 1)

  // A run lasts from a Begin, or from the firing that freed the previous run, to the next of these.

  function NewRun(b: Book, d: Domain): Book {
    b.(run := b.run[d := b.nextRun], ended := b.ended - {d}, nextRun := b.nextRun + 1)
  }

  function BookBegin(b: Book, d: Domain): Book {
    NewRun(b.(gen := b.gen[d := (b.GenOf(d) + 1) % GENERATIONS]), d)
  }

  function BookEnd(b: Book, d: Domain): Book {
    b.(ended := b.ended + {d}, pending := b.pending + [Pending(d, b.GenOf(d), b.RunOf(d))])
  }

  function BookFire(b: Book, i: nat): Book
    requires i < |b.pending|
  {
    var d := b.pending[i].domain;
    var left := b.(pending := b.pending[..i] + b.pending[i + 1..]);
    if b.Clears(i) then NewRun(left.(gen := left.gen - {d}), d) else left
  }

  datatype Ledger = Ledger(hub: HubState, book: Book)

  const Start := Ledger(EmptyHub, EmptyBook)

  /** The book describes the hub it is kept for. */
  predicate Linked(w: Ledger) {
    && w.book.gen == w.hub.gen
    && |w.book.pending| == |w.hub.timers|
    && forall i :: 0 <= i < |w.hub.timers| ==>
         w.hub.timers[i] == Timer(w.book.pending[i].domain, w.book.pending[i].gen)
  }

  predicate Ends(h: HubState, s: Step) {
    s.Emit? && Stamp(h, s.domain, s.event, s.now).Terminal()
  }

  /** One critical section with its history; a step that is not enabled does nothing. */
  function Record(w: Ledger, s: Step): (w': Ledger)
    requires Linked(w)
    ensures Linked(w')
  {
    if !Enabled(w.hub, s) then w else
    var book :=
      match s
      case Begin(d) => BookBegin(w.book, d)
      case Emit(d, ev, now) => if Ends(w.hub, s) then BookEnd(w.book, d) else w.book
      case Fire(i) => BookFire(w.book, i)
      case _ => w.book;
    Ledger(Next(w.hub, s), book)
  }

  function Play(steps: seq<Step>): (w: Ledger)
    ensures Linked(w)
  {
    if steps == [] then Start else Record(Play(steps[..|steps| - 1]), steps[|steps| - 1])
  }

  // The premises.

  /** Timers of one domain fire in the order they were scheduled. */
  predicate InOrder(b: Book, i: nat)
    requires i < |b.pending|
  {
    forall j :: 0 <= j < i ==> b.pending[j].domain != b.pending[i].domain
  }

  /** Timers fire in order, a run emits no second terminal event, the counter does not wrap. */
  predicate Allowed(w: Ledger, s: Step)
    requires Linked(w)
  {
    && Enabled(w.hub, s)
    && (s.Fire? ==> InOrder(w.book, s.timer))
    && (Ends(w.hub, s) ==> s.domain !in w.book.ended)
    && (s.Begin? ==> w.book.GenOf(s.domain) + 1 < GENERATIONS)
  }

  predicate Legal(steps: seq<Step>) {
    steps == [] || (Legal(steps[..|steps| - 1]) && Allowed(Play(steps[..|steps| - 1]), steps[|steps| - 1]))
  }

  // The invariant over the timer queue.

  ghost predicate Inv(b: Book) {
    && (forall p :: p in b.pending ==> Dated(b, p))
    && Ascending(b.pending)
    && (forall d :: b.RunOf(d) < b.nextRun)
    && (forall d :: d in b.ended ==> Pending(d, b.GenOf(d), b.RunOf(d)) in b.pending)
  }

  ghost predicate Ascending(ps: seq<Pending>) {
    forall i, j :: 0 <= i < j < |ps| && ps[i].domain == ps[j].domain ==> ps[i].gen < ps[j].gen
  }

  /** A timer carries the current number exactly when the current run scheduled it. */
  ghost predicate Dated(b: Book, p: Pending) {
    && p.run < b.nextRun
    && p.gen <= b.GenOf(p.domain)
    && (p.gen == b.GenOf(p.domain) <==> p.run == b.RunOf(p.domain))
    && (p.run == b.RunOf(p.domain) ==> p.domain in b.ended)
  }

  lemma BeginKeeps(b: Book, d: Domain)
    requires Inv(b) && b.GenOf(d) + 1 < GENERATIONS
    ensures Inv(BookBegin(b, d))
  {
    var b' := BookBegin(b, d);
    assert b'.GenOf(d) == b.GenOf(d) + 1;
    assert forall x :: x != d ==> b'.GenOf(x) == b.GenOf(x) && b'.RunOf(x) == b.RunOf(x);
    forall p | p in b'.pending ensures Dated(b', p) {
      assert Dated(b, p);
    }
  }

  lemma EndKeeps(b: Book, d: Domain)
    requires Inv(b) && d !in b.ended
    ensures Inv(BookEnd(b, d))
  {
    var b' := BookEnd(b, d);
    assert forall x :: b'.RunOf(x) == b.RunOf(x);
    forall p | p in b'.pending ensures Dated(b', p) {
      assert p in b.pending ==> Dated(b, p);
    }
    forall i | 0 <= i < |b.pending| && b.pending[i].domain == d ensures b.pending[i].gen < b.GenOf(d) {
      assert Dated(b, b.pending[i]);
    }
    assert b'.pending[|b.pending|] == Pending(d, b.GenOf(d), b.RunOf(d));
    forall x | x in b'.ended ensures Pending(x, b'.GenOf(x), b'.RunOf(x)) in b'.pending {
      assert x != d ==> Pending(x, b.GenOf(x), b.RunOf(x)) in b.pending;
    }
  }

  lemma RemovedAt(ps: seq<Pending>, i: nat)
    requires i < |ps| && Ascending(ps)
    ensures var left := ps[..i] + ps[i + 1..];
            && Ascending(left)
            && (forall p :: p in left ==> p in ps)
            && (forall p :: p in ps && p != ps[i] ==> p in left)
  {
  }

  lemma FireKeeps(b: Book, i: nat)
    requires Inv(b) && i < |b.pending| && InOrder(b, i)
    ensures Inv(BookFire(b, i))
  {
    var b' := BookFire(b, i);
    var d := b.pending[i].domain;
    RemovedAt(b.pending, i);
    assert Dated(b, b.pending[i]);
    if b.Clears(i) {
      forall p | p in b'.pending ensures p.domain != d && Dated(b', p) {
        assert Dated(b, p);
        ClearedHasNoTwin(b, i, p);
      }
      assert forall x :: x != d ==> b'.GenOf(x) == b.GenOf(x) && b'.RunOf(x) == b.RunOf(x);
    } else {
      forall p | p in b'.pending ensures Dated(b', p) {
        assert Dated(b, p);
      }
      assert forall x :: b'.RunOf(x) == b.RunOf(x);
    }
    forall x | x in b'.ended ensures Pending(x, b'.GenOf(x), b'.RunOf(x)) in b'.pending {
      assert Pending(x, b.GenOf(x), b.RunOf(x)) in b.pending;
    }
  }

  /** When the timer that fires is of the current run, no other timer of its domain is pending. */
  lemma ClearedHasNoTwin(b: Book, i: nat, p: Pending)
    requires Inv(b) && i < |b.pending| && InOrder(b, i) && b.Clears(i)
    requires p in b.pending[..i] + b.pending[i + 1..]
    ensures p.domain != b.pending[i].domain
  {
    var left := b.pending[..i] + b.pending[i + 1..];
    var k :| 0 <= k < |left| && left[k] == p;
    if k >= i {
      assert p == b.pending[k + 1] && Dated(b, p);
    }
  }

  lemma RecordKeeps(w: Ledger, s: Step)
    requires Linked(w) && Inv(w.book) && Allowed(w, s)
    ensures Inv(Record(w, s).book)
  {
    match s
    case Begin(d) => BeginKeeps(w.book, d);
    case Emit(d, ev, now) => if Ends(w.hub, s) { EndKeeps(w.book, d); }
    case Fire(i) => FireKeeps(w.book, i);
    case _ =>
  }

  lemma {:induction false} PlayKeeps(steps: seq<Step>)
    requires Legal(steps)
    ensures Inv(Play(steps).book)
  {
    if steps != [] {
      PlayKeeps(steps[..|steps| - 1]);
      RecordKeeps(Play(steps[..|steps| - 1]), steps[|steps| - 1]);
    }
  }

  /** Firing timer `i` frees its domain's buffer if the current run scheduled it, and otherwise changes
      the timer queue only. */
  predicate FreesItsOwnRunOnly(w: Ledger, i: nat) {
    && i < |w.book.pending| && i < |w.hub.timers|
    && var h := Next(w.hub, Step.Fire(i)); var p := w.book.pending[i];
      if p.run == w.book.RunOf(p.domain) then h.buffers == w.hub.buffers - {p.domain} else h == w.hub.(timers := h.timers)
  }

  /** In every legal run a firing timer frees its domain's buffer exactly when the current run is
      the one that scheduled it; otherwise only the timer queue changes. It never touches another
      domain's buffer. */
  lemma {:induction false} TimerFreesExactlyItsOwnRun(steps: seq<Step>, i: nat)
    requires Legal(steps + [Step.Fire(i)])
    ensures FreesItsOwnRunOnly(Play(steps), i)
  {
    assert (steps + [Step.Fire(i)])[..|steps|] == steps;
    PlayKeeps(steps);
    assert Dated(Play(steps).book, Play(steps).book.pending[i]);
  }

  /** A run may go on with any step but these: a timer before an older one of its own domain, a second
      ending, a Begin that wraps the counter. */
  lemma LegalIff(steps: seq<Step>, s: Step)
    requires Legal(steps) && Enabled(Play(steps).hub, s)
    ensures var w := Play(steps);
      Legal(steps + [s]) <==>
      && (s.Fire? ==> forall j :: 0 <= j < s.timer ==> w.hub.timers[j].domain != w.hub.timers[s.timer].domain)
      && (s.Emit? && (s.event.status == "error" || s.event.percent >= 100) ==> s.domain !in w.book.ended)
      && (s.Begin? ==> (if s.domain in w.hub.gen then w.hub.gen[s.domain] else 0) + 1 < 0x1_0000_0000_0000_0000)
  {
    hide Play, Allowed, Enabled;
    assert (steps + [s])[..|steps|] == steps;
    AllowedIff(Play(steps), s);
  }

  lemma AllowedIff(w: Ledger, s: Step)
    requires Linked(w) && Enabled(w.hub, s)
    ensures Allowed(w, s) <==>
      && (s.Fire? ==> forall j :: 0 <= j < s.timer ==> w.hub.timers[j].domain != w.hub.timers[s.timer].domain)
      && (s.Emit? && (s.event.status == "error" || s.event.percent >= 100) ==> s.domain !in w.book.ended)
      && (s.Begin? ==> (if s.domain in w.hub.gen then w.hub.gen[s.domain] else 0) + 1 < 0x1_0000_0000_0000_0000)
  {
  }

  /** The one pending timer of a domain that will free its buffer. */
  ghost predicate OnlyClearing(b: Book, d: Domain, i: nat) {
    && i < |b.pending| && b.pending[i].domain == d && b.Clears(i)
    && forall j :: 0 <= j < |b.pending| && b.pending[j].domain == d && b.Clears(j) ==> j == i
  }

  lemma CurrentTimer(b: Book, d: Domain) returns (i: nat)
    requires Inv(b) && d in b.ended
    ensures OnlyClearing(b, d, i)
  {
    i :| 0 <= i < |b.pending| && b.pending[i] == Pending(d, b.GenOf(d), b.RunOf(d));
  }

  /** A finished run has exactly one pending timer that will free its buffer. */
  lemma {:induction false} FinishedRunIsFreedOnce(steps: seq<Step>, d: Domain)
    requires Legal(steps) && d in Play(steps).book.ended
    ensures exists i: nat :: OnlyClearing(Play(steps).book, d, i)
  {
    hide Play, Inv, Legal;
    PlayKeeps(steps);
    var i := CurrentTimer(Play(steps).book, d);
  }

  // What holds without the premises: generation numbers against the trace, in every run.

  predicate ClearsDomain(w: Ledger, s: Step, d: Domain)
    requires Linked(w)
  {
    s.Fire? && Enabled(w.hub, s) && w.book.pending[s.timer].domain == d && w.book.Clears(s.timer)
  }

  /** The Begins of `d` since a timer last cleared it. */
  function BeginsSinceClearing(steps: seq<Step>, d: Domain): nat {
    if steps == [] then 0
    else
      var before, s := steps[..|steps| - 1], steps[|steps| - 1];
      if s == Step.Begin(d) then BeginsSinceClearing(before, d) + 1
      else if ClearsDomain(Play(before), s, d) then 0
      else BeginsSinceClearing(before, d)
  }

  /** The number of the run that the last clearing of `d` began, 0 before the first. */
  function LastCleared(steps: seq<Step>, d: Domain): nat {
    if steps == [] then 0
    else
      var w := Play(steps[..|steps| - 1]);
      if ClearsDomain(w, steps[|steps| - 1], d) then w.book.nextRun else LastCleared(steps[..|steps| - 1], d)
  }

  lemma RecordCounts(w: Ledger, s: Step, d: Domain, n: nat, cleared: nat)
    requires Linked(w) && w.book.GenOf(d) == n % GENERATIONS && cleared <= w.book.RunOf(d) < w.book.nextRun
    ensures var clears := ClearsDomain(w, s, d); var b := Record(w, s).book;
      && b.GenOf(d) == (if s == Step.Begin(d) then n + 1 else if clears then 0 else n) % GENERATIONS
      && (if clears then w.book.nextRun else cleared) <= b.RunOf(d) < b.nextRun
  {
  }

  /** The counter, and so the id in every event, is the count of Begins since the last clearing. */
  lemma {:induction false} RunIdCountsBegins(steps: seq<Step>, d: Domain)
    ensures Play(steps).book.GenOf(d) == BeginsSinceClearing(steps, d) % GENERATIONS
    ensures BeginsSinceClearing(steps, d) <= |steps|
    ensures LastCleared(steps, d) <= Play(steps).book.RunOf(d) < Play(steps).book.nextRun
  {
    hide Record, ClearsDomain;
    if steps != [] {
      var before := steps[..|steps| - 1];
      RunIdCountsBegins(before, d);
      RecordCounts(Play(before), steps[|steps| - 1], d, BeginsSinceClearing(before, d), LastCleared(before, d));
    }
  }

  /** A number drawn in run `run`: it is current only in that run, until a clearing starts the count anew. */
  ghost predicate Drawn(b: Book, cleared: nat, d: Domain, gen: nat, run: nat) {
    && run <= b.RunOf(d)
    && (run >= cleared ==> gen <= b.GenOf(d) && (gen == b.GenOf(d) <==> run == b.RunOf(d)))
  }

  lemma {:induction false} RecordKeepsDrawn(w: Ledger, s: Step, cleared: nat, d: Domain, gen: nat, run: nat)
    requires Linked(w) && Drawn(w.book, cleared, d, gen, run)
    requires w.book.GenOf(d) + 1 < GENERATIONS && w.book.RunOf(d) < w.book.nextRun
    ensures Drawn(Record(w, s).book, if ClearsDomain(w, s, d) then w.book.nextRun else cleared, d, gen, run)
  {
  }

  lemma {:induction false} DrawnLater(steps: seq<Step>, k: nat, d: Domain)
    requires k <= |steps| < GENERATIONS
    ensures var early := Play(steps[..k]).book; Drawn(Play(steps).book, LastCleared(steps, d), d, early.GenOf(d), early.RunOf(d))
  {
    hide Record, Drawn, ClearsDomain;
    if k == |steps| {
      assert steps[..k] == steps;
      DrawnNow(Play(steps).book, LastCleared(steps, d), d);
    } else {
      var before := steps[..|steps| - 1];
      DrawnLater(before, k, d);
      assert before[..k] == steps[..k];
      RunIdCountsBegins(before, d);
      var early := Play(steps[..k]).book;
      RecordKeepsDrawn(Play(before), steps[|steps| - 1], LastCleared(before, d), d, early.GenOf(d), early.RunOf(d));
    }
  }

  lemma DrawnNow(b: Book, cleared: nat, d: Domain)
    ensures Drawn(b, cleared, d, b.GenOf(d), b.RunOf(d))
  {
  }

  /** Two runs of a domain put the same id on their events if and only if the domain was cleared since
      the earlier one and has begun as often since then as it had before that run's events. */
  lemma {:induction false} RunsShareAnIdIff(steps: seq<Step>, k: nat, d: Domain, ev: Event, ev': Event, now: int, now': int)
    requires k <= |steps| < GENERATIONS
    requires Play(steps[..k]).book.RunOf(d) != Play(steps).book.RunOf(d)
    ensures Stamp(Play(steps[..k]).hub, d, ev, now).run == Stamp(Play(steps).hub, d, ev', now').run
            <==> LastCleared(steps, d) > Play(steps[..k]).book.RunOf(d)
                 && BeginsSinceClearing(steps, d) == BeginsSinceClearing(steps[..k], d)
  {
    hide Play, BeginsSinceClearing, LastCleared;
    DrawnLater(steps, k, d);
    RunIdCountsBegins(steps, d);
    RunIdCountsBegins(steps[..k], d);
  }

  /** The timer, if it fires now, frees the buffer of a run that did not schedule it. */
  predicate FreesForeignRun(w: Ledger, i: nat)
    requires i < |w.book.pending|
  {
    w.book.Clears(i) && w.book.pending[i].run != w.book.RunOf(w.book.pending[i].domain)
  }

  lemma NewTimerIsOfNow(w: Ledger, s: Step, p: Pending)
    requires Linked(w) && p in Record(w, s).book.pending && p !in w.book.pending
    ensures var b := Record(w, s).book; p.gen == b.GenOf(p.domain) && p.run == b.RunOf(p.domain)
  {
  }

  /** Every pending timer still carries the number drawn in its own run. */
  lemma {:induction false} PendingIsDrawn(steps: seq<Step>, p: Pending)
    requires |steps| < GENERATIONS && p in Play(steps).book.pending
    ensures Drawn(Play(steps).book, LastCleared(steps, p.domain), p.domain, p.gen, p.run)
  {
    hide Drawn, ClearsDomain, Record;
    var before, s := steps[..|steps| - 1], steps[|steps| - 1];
    if p in Play(before).book.pending {
      PendingIsDrawn(before, p);
      RunIdCountsBegins(before, p.domain);
      RecordKeepsDrawn(Play(before), s, LastCleared(before, p.domain), p.domain, p.gen, p.run);
    } else {
      NewTimerIsOfNow(Play(before), s, p);
      DrawnNow(Play(steps).book, LastCleared(steps, p.domain), p.domain);
    }
  }

  /** In every run, whatever the order of the timers and however many endings a run has: a timer frees
      a run that did not schedule it if and only if its domain was cleared since it was scheduled and
      has begun exactly as often since then as its number says. Otherwise it does what it should. */
  lemma {:induction false} TimerFreesForeignRunIff(steps: seq<Step>, i: nat)
    requires |steps| < GENERATIONS && i < |Play(steps).book.pending|
    ensures var p := Play(steps).book.pending[i];
      FreesForeignRun(Play(steps), i) <==> LastCleared(steps, p.domain) > p.run && BeginsSinceClearing(steps, p.domain) == p.gen
    ensures !FreesForeignRun(Play(steps), i) ==> FreesItsOwnRunOnly(Play(steps), i)
  {
    hide Play, BeginsSinceClearing, LastCleared;
    var p := Play(steps).book.pending[i];
    PendingIsDrawn(steps, p);
    RunIdCountsBegins(steps, p.domain);
  }

  // Both premises are needed: the two runs below break one of them each and lose a newer run's buffer.

  function Plain(percent: int): Event { Event("step", "running", "", percent, 0, 1) }

  predicate WipesNewerRun(w: Ledger, i: nat)
    requires Linked(w) && i < |w.book.pending|
  {
    var p := w.book.pending[i];
    && p.run != w.book.RunOf(p.domain)
    && w.hub.BufferOf(p.domain) != []
    && Next(w.hub, Step.Fire(i)).BufferOf(p.domain) == []
  }

  lemma Extend(steps: seq<Step>, s: Step)
    ensures Play(steps + [s]) == Record(Play(steps), s)
    ensures Legal(steps + [s]) <==> Legal(steps) && Allowed(Play(steps), s)
  {
  }

  lemma FirstRun(d: Domain) returns (steps: seq<Step>)
    ensures steps == [Step.Begin(d), Step.Emit(d, Plain(100), 1)]
    ensures Legal(steps)
    ensures Play(steps).book == Book(map[d := 1], [Pending(d, 1, 1)], map[d := 1], {d}, 2)
  {
    Extend([], Step.Begin(d));
    assert [] + [Step.Begin(d)] == [Step.Begin(d)];
    assert Play([Step.Begin(d)]).book == Book(map[d := 1], [], map[d := 1], {}, 2);
    Extend([Step.Begin(d)], Step.Emit(d, Plain(100), 1));
    steps := [Step.Begin(d)] + [Step.Emit(d, Plain(100), 1)];
  }

  lemma EndedTwice(d: Domain) returns (steps: seq<Step>)
    ensures steps == [Step.Begin(d), Step.Emit(d, Plain(100), 1), Step.Emit(d, Plain(100), 1)]
    ensures Play(steps).book == Book(map[d := 1], [Pending(d, 1, 1), Pending(d, 1, 1)], map[d := 1], {d}, 2)
  {
    var first := FirstRun(d);
    hide Play, Legal, Allowed;
    Extend(first, Step.Emit(d, Plain(100), 1));
    steps := first + [Step.Emit(d, Plain(100), 1)];
  }

  /** A second terminal event in one run: the first timer resets the generation, the next run gets
      the same number, and the second timer wipes that run's buffer. */
  lemma SecondEndingWipesNewerRun(d: Domain) returns (steps: seq<Step>)
    ensures steps == [Step.Begin(d), Step.Emit(d, Plain(100), 1), Step.Emit(d, Plain(100), 1), Step.Fire(0),
                      Step.Begin(d), Step.Emit(d, Plain(10), 1)]
    ensures |Play(steps).book.pending| == 1 && InOrder(Play(steps).book, 0) && WipesNewerRun(Play(steps), 0)
  {
    var s3 := EndedTwice(d);
    hide Play, Legal;
    Extend(s3, Step.Fire(0));
    var s4 := s3 + [Step.Fire(0)];
    assert Play(s4).book == Book(map[], [Pending(d, 1, 1)], map[d := 2], {}, 3);
    steps := NewestRun(s4, d);
  }

  lemma TwoRuns(d: Domain) returns (steps: seq<Step>)
    ensures steps == [Step.Begin(d), Step.Emit(d, Plain(100), 1), Step.Begin(d), Step.Emit(d, Plain(100), 1)]
    ensures Legal(steps)
    ensures Play(steps).book == Book(map[d := 2], [Pending(d, 1, 1), Pending(d, 2, 2)], map[d := 2], {d}, 3)
  {
    var s2 := FirstRun(d);
    hide Play, Legal;
    Extend(s2, Step.Begin(d));
    var s3 := s2 + [Step.Begin(d)];
    assert Play(s3).book == Book(map[d := 2], [Pending(d, 1, 1)], map[d := 2], {}, 3);
    Extend(s3, Step.Emit(d, Plain(100), 1));
    steps := s3 + [Step.Emit(d, Plain(100), 1)];
  }

  /** Timers out of order: run 2's timer fires before run 1's, the counter restarts, and run 1's
      timer carries run 3's number. Nothing else is out of place. */
  lemma OutOfOrderWipesNewerRun(d: Domain) returns (before: seq<Step>, steps: seq<Step>)
    ensures before == [Step.Begin(d), Step.Emit(d, Plain(100), 1), Step.Begin(d), Step.Emit(d, Plain(100), 1)]
    ensures Legal(before)
    ensures steps == before + [Step.Fire(1)] + [Step.Begin(d), Step.Emit(d, Plain(10), 1)]
    ensures |Play(steps).book.pending| == 1 && Allowed(Play(steps), Step.Fire(0)) && WipesNewerRun(Play(steps), 0)
  {
    before := TwoRuns(d);
    hide Play, Legal;
    Extend(before, Step.Fire(1));
    assert Play(before + [Step.Fire(1)]).book == Book(map[], [Pending(d, 1, 1)], map[d := 3], {}, 4);
    steps := NewestRun(before + [Step.Fire(1)], d);
  }

  /** After a premature reset the next run is number 1 again, and its event is buffered. */
  lemma NewestRun(before: seq<Step>, d: Domain) returns (steps: seq<Step>)
    requires var b := Play(before).book; b.gen == map[] && b.pending == [Pending(d, 1, 1)] && b.nextRun > 1
    ensures steps == before + [Step.Begin(d), Step.Emit(d, Plain(10), 1)]
    ensures |Play(steps).book.pending| == 1 && Allowed(Play(steps), Step.Fire(0)) && WipesNewerRun(Play(steps), 0)
  {
    Extend(before, Step.Begin(d));
    var s := before + [Step.Begin(d)];
    assert Play(s).book.gen == map[d := 1] && Play(s).book.RunOf(d) == Play(before).book.nextRun;
    Extend(s, Step.Emit(d, Plain(10), 1));
    steps := s + [Step.Emit(d, Plain(10), 1)];
    assert steps == before + [Step.Begin(d), Step.Emit(d, Plain(10), 1)];
    assert !Ends(Play(s).hub, Step.Emit(d, Plain(10), 1));
    assert Play(steps).book == Play(s).book;
    assert Play(steps).book.Clears(0);
  }

  lemma EmitToOne(h: HubState, d: Domain, percent: int, q: seq<Event>)
    requires h.SubsOf(d) == {0} && h.chans == map[0 := Chan(q, false)] && |q| < 2
    ensures EmitStep(h, d, Plain(percent), 1).chans == map[0 := Chan(q + [Plain(percent).(run := h.GenOf(d))], false)]
  {
  }

  lemma WatchedRun(d: Domain) returns (steps: seq<Step>)
    ensures Legal(steps)
    ensures Play(steps).book == Book(map[d := 1], [Pending(d, 1, 1)], map[d := 1], {d}, 2)
    ensures Play(steps).hub.SubsOf(d) == {0}
    ensures Play(steps).hub.chans == map[0 := Chan([Plain(100).(run := 1)], false)]
  {
    Extend([], Step.Begin(d));
    var s1 := [] + [Step.Begin(d)];
    Extend(s1, Step.Subscribe(d, 0));
    var s2 := s1 + [Step.Subscribe(d, 0)];
    assert Play(s2).hub.SubsOf(d) == {0} && Play(s2).hub.chans == map[0 := Chan([], false)];
    assert Play(s2).book == Book(map[d := 1], [], map[d := 1], {}, 2);
    Extend(s2, Step.Emit(d, Plain(100), 1));
    EmitToOne(Play(s2).hub, d, 100, []);
    assert [] + [Plain(100).(run := 1)] == [Plain(100).(run := 1)];
    assert Play(s2).hub.GenOf(d) == 1;
    steps := s2 + [Step.Emit(d, Plain(100), 1)];
  }

  lemma FreedRun(d: Domain) returns (steps: seq<Step>)
    ensures Legal(steps)
    ensures Play(steps).book.gen == map[]
    ensures Play(steps).hub.SubsOf(d) == {0}
    ensures Play(steps).hub.chans == map[0 := Chan([Plain(100).(run := 1)], false)]
  {
    var watched := WatchedRun(d);
    Extend(watched, Step.Fire(0));
    assert Play(watched).book.Clears(0);
    steps := watched + [Step.Fire(0)];
  }

  lemma BeginAgain(h: HubState, d: Domain, q: seq<Event>)
    requires h.gen == map[] && h.SubsOf(d) == {0} && h.chans == map[0 := Chan(q, false)] && |q| < 2
    ensures EmitStep(BeginStep(h, d), d, Plain(10), 1).chans == map[0 := Chan(q + [Plain(10).(run := 1)], false)]
  {
  }

  /** A run's id is not unique: the run after a freed one carries id 1 again, so a subscriber that
      outlives the retention window gets two runs' events under one id. The run is legal. */
  lemma RunIdIsReusedAfterForget(d: Domain) returns (steps: seq<Step>)
    ensures Legal(steps)
    ensures Play(steps).hub.chans == map[0 := Chan([Plain(100).(run := 1)] + [Plain(10).(run := 1)], false)]
  {
    var freed := FreedRun(d);
    Extend(freed, Step.Begin(d));
    var again := freed + [Step.Begin(d)];
    Extend(again, Step.Emit(d, Plain(10), 1));
    BeginAgain(Play(freed).hub, d, [Plain(100).(run := 1)]);
    steps := again + [Step.Emit(d, Plain(10), 1)];
  }
}
