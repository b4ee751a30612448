/** The per-site try-lock (internal/engine/safety.go) and the engine operations that run under it,
    interleaved freely with each other and with the progress hub's timers and subscribers. */
module SiteLocks {
  import opened Progress
  import opened ProgressRuns

  // The lock manager.

  datatype LockState = LockState(operation: string, since: int)

  datatype LockInfo = LockInfo(operation: string, since: int, held: bool)

  datatype Acquired = Ok | Conflict(operation: string, since: int)

  class LockManager {
    var locks: map<Domain, LockState>

    constructor ()
      ensures locks == map[]
    {
      locks := map[];
    }

    /** A try-lock: it never waits, and a holder is reported as it stands. */
    method Acquire(domain: Domain, operation: string, now: int) returns (r: Acquired)
      modifies this
      ensures r.Ok? <==> domain !in old(locks)
      ensures r.Ok? ==> locks == old(locks)[domain := LockState(operation, now)]
      ensures r.Conflict? ==> locks == old(locks) && LockState(r.operation, r.since) == old(locks)[domain]
    {
      if domain in locks {
        return Conflict(locks[domain].operation, locks[domain].since);
      }
      locks := locks[domain := LockState(operation, now)];
      return Ok;
    }

    method Release(domain: Domain)
      modifies this
      ensures locks == old(locks) - {domain}
    {
      locks := locks - {domain};
    }

    method Info(domain: Domain) returns (info: LockInfo)
      ensures info.held <==> domain in locks
      ensures info.held ==> LockState(info.operation, info.since) == locks[domain]
      ensures !info.held ==> info == LockInfo("", 0, false)
    {
      if domain in locks {
        info := LockInfo(locks[domain].operation, locks[domain].since, true);
      } else {
        info := LockInfo("", 0, false);
      }
    }
  }

  // Operations as programs over the lock manager and the hub.

  datatype Code =
    | Done
    | TryLock(domain: Domain, got: Code, busy: Code)
    | Unlock(domain: Domain, next: Code)
    | BeginRun(domain: Domain, next: Code)
    | Note(domain: Domain, event: Event, next: Code)    // a progress event that ends nothing
    | Finish(domain: Domain, event: Event, next: Code)  // the terminal event of a run
    | Either(left: Code, right: Code)                   // success or failure, decided by the outside world

  /** What an operation must respect: `held` are the locks it owns, `open` those of them under
      which it has begun a run it has not finished. */
  predicate Disciplined(code: Code, held: set<Domain>, open: set<Domain>) {
    match code
    case Done => held == {}
    case TryLock(d, got, busy) => d !in held && Disciplined(got, held + {d}, open) && Disciplined(busy, held, open)
    case Unlock(d, next) => d in held && d !in open && Disciplined(next, held - {d}, open)
    case BeginRun(d, next) => d in held && d !in open && Disciplined(next, held, open + {d})
    case Note(d, ev, next) => !ev.Terminal() && Disciplined(next, held, open)
    case Finish(d, ev, next) => d in open && ev.Terminal() && Disciplined(next, held, open - {d})
    case Either(l, r) => Disciplined(l, held, open) && Disciplined(r, held, open)
  }

  function Size(code: Code): nat {
    match code
    case Done => 0
    case TryLock(_, got, busy) => 1 + Size(got) + Size(busy)
    case Unlock(_, next) => 1 + Size(next)
    case BeginRun(_, next) => 1 + Size(next)
    case Note(_, _, next) => 1 + Size(next)
    case Finish(_, _, next) => 1 + Size(next)
    case Either(l, r) => 1 + Size(l) + Size(r)
  }

  // The system: every operation at its point, the locks, and the hub with its book.

  type OpId = nat

  datatype Op = Op(code: Code, held: set<Domain>, open: set<Domain>)

  datatype System = System(ops: map<OpId, Op>, locks: map<Domain, OpId>, trace: seq<Step>)

  const Idle := System(map[], map[], [])

  function BookOf(s: System): Book { Play(s.trace).book }

  datatype Move =
    | Start(op: OpId, code: Code)      // a request arrives
    | Advance(op: OpId, left: bool, now: int)
    | Outside(step: Step)              // a timer fires, a client subscribes, cancels or reads

  predicate Possible(s: System, m: Move) {
    match m
    case Start(op, code) => op !in s.ops && Disciplined(code, {}, {})
    case Advance(op, _, _) =>
      && op in s.ops && !s.ops[op].code.Done?
      && (s.ops[op].code.BeginRun? ==> BookOf(s).GenOf(s.ops[op].code.domain) + 1 < GENERATIONS)
    case Outside(step) =>
      && (step.Fire? || step.Subscribe? || step.Cancel? || step.Receive?)
      && Enabled(Play(s.trace).hub, step)
      && (step.Fire? ==> InOrder(BookOf(s), step.timer))
  }

  function Apply(s: System, m: Move): System
    requires Possible(s, m)
  {
    match m
    case Start(op, code) => s.(ops := s.ops[op := Op(code, {}, {})])
    case Outside(step) => s.(trace := s.trace + [step])
    case Advance(op, left, now) =>
      var o := s.ops[op];
      match o.code
      case TryLock(d, got, busy) =>
        if d in s.locks then s.(ops := s.ops[op := o.(code := busy)])
        else s.(ops := s.ops[op := Op(got, o.held + {d}, o.open)], locks := s.locks[d := op])
      case Unlock(d, next) =>
        s.(ops := s.ops[op := Op(next, o.held - {d}, o.open)], locks := s.locks - {d})
      case BeginRun(d, next) =>
        s.(ops := s.ops[op := Op(next, o.held, o.open + {d})], trace := s.trace + [Step.Begin(d)])
      case Note(d, ev, next) =>
        s.(ops := s.ops[op := o.(code := next)], trace := s.trace + [Step.Emit(d, ev, now)])
      case Finish(d, ev, next) =>
        s.(ops := s.ops[op := Op(next, o.held, o.open - {d})], trace := s.trace + [Step.Emit(d, ev, now)])
      case Either(l, r) => s.(ops := s.ops[op := o.(code := if left then l else r)])
  }

  predicate Run(moves: seq<Move>) {
    moves == [] || (Run(moves[..|moves| - 1]) && Possible(After(moves[..|moves| - 1]), moves[|moves| - 1]))
  }

  function After(moves: seq<Move>): System {
    if moves == [] then Idle else
    var s := After(moves[..|moves| - 1]);
    if Possible(s, moves[|moves| - 1]) then Apply(s, moves[|moves| - 1]) else s
  }

  // What every interleaving keeps.

  /** The lock table and the operations agree on who holds what. */
  ghost predicate Owned(ops: map<OpId, Op>, locks: map<Domain, OpId>) {
    && (forall d :: d in locks ==> locks[d] in ops && d in ops[locks[d]].held)
    && (forall op :: op in ops ==> HoldsOnly(op, ops[op].held, locks))
  }

  ghost predicate HoldsOnly(op: OpId, held: set<Domain>, locks: map<Domain, OpId>) {
    forall d :: d in held ==> d in locks && locks[d] == op
  }

  /** Every operation is disciplined from where it stands, and the run it has open has not ended. */
  ghost predicate Obedient(ops: map<OpId, Op>, ended: set<Domain>) {
    forall op :: op in ops ==> OpOk(ops[op], ended)
  }

  ghost predicate OpOk(o: Op, ended: set<Domain>) {
    Disciplined(o.code, o.held, o.open) && o.open <= o.held && o.open !! ended
  }

  ghost predicate Inv(s: System) {
    Owned(s.ops, s.locks) && Legal(s.trace) && Obedient(s.ops, BookOf(s).ended)
  }

  /** What a legal step does to the set of ended runs. */
  lemma EndedAfter(trace: seq<Step>, step: Step)
    requires Legal(trace) && Allowed(Play(trace), step)
    ensures Legal(trace + [step])
    ensures var before := Play(trace).book.ended; var after := Play(trace + [step]).book.ended;
            && (step.Begin? ==> after == before - {step.domain})
            && (step.Emit? ==> after == if step.event.Terminal() then before + {step.domain} else before)
            && (!step.Emit? ==> after <= before)
  {
    Extend(trace, step);
  }

  /** An operation inside `d`'s lock may end or restart `d`'s run: nobody else has it open. */
  lemma StepUnderLock(ops: map<OpId, Op>, locks: map<Domain, OpId>, ended: set<Domain>, op: OpId, o: Op, d: Domain, ended': set<Domain>)
    requires Owned(ops, locks) && Obedient(ops, ended)
    requires op in ops && d in ops[op].held && o.held == ops[op].held
    requires ended' <= ended + {d} && OpOk(o, ended')
    ensures Owned(ops[op := o], locks) && Obedient(ops[op := o], ended')
  {
  }

  /** An operation moves on without touching the hub or another's lock. */
  lemma StepAlone(ops: map<OpId, Op>, locks: map<Domain, OpId>, ended: set<Domain>, op: OpId, o: Op)
    requires Owned(ops, locks) && Obedient(ops, ended)
    requires op in ops && o.held == ops[op].held && OpOk(o, ended)
    ensures Owned(ops[op := o], locks) && Obedient(ops[op := o], ended)
  {
  }

  lemma StepLocks(ops: map<OpId, Op>, locks: map<Domain, OpId>, ended: set<Domain>, op: OpId, o: Op, d: Domain)
    requires Owned(ops, locks) && Obedient(ops, ended)
    requires op in ops && d !in locks && o.held == ops[op].held + {d} && OpOk(o, ended)
    ensures Owned(ops[op := o], locks[d := op]) && Obedient(ops[op := o], ended)
  {
  }

  lemma StepUnlocks(ops: map<OpId, Op>, locks: map<Domain, OpId>, ended: set<Domain>, op: OpId, o: Op, d: Domain)
    requires Owned(ops, locks) && Obedient(ops, ended)
    requires op in ops && d in ops[op].held && o.held == ops[op].held - {d} && OpOk(o, ended)
    ensures Owned(ops[op := o], locks - {d}) && Obedient(ops[op := o], ended)
  {
  }

  lemma {:induction false} AdvanceKeeps(s: System, op: OpId, left: bool, now: int)
    requires Inv(s) && Possible(s, Advance(op, left, now))
    ensures Inv(Apply(s, Advance(op, left, now)))
  {
    var o := s.ops[op];
    var ended := BookOf(s).ended;
    assert OpOk(o, ended);
    match o.code
    case TryLock(d, got, busy) =>
      if d in s.locks {
        StepAlone(s.ops, s.locks, ended, op, o.(code := busy));
      } else {
        StepLocks(s.ops, s.locks, ended, op, Op(got, o.held + {d}, o.open), d);
      }
    case Unlock(d, next) => StepUnlocks(s.ops, s.locks, ended, op, Op(next, o.held - {d}, o.open), d);
    case Either(l, r) => StepAlone(s.ops, s.locks, ended, op, o.(code := if left then l else r));
    case BeginRun(d, next) =>
      EndedAfter(s.trace, Step.Begin(d));
      StepUnderLock(s.ops, s.locks, ended, op, Op(next, o.held, o.open + {d}), d, ended - {d});
    case Note(d, ev, next) =>
      EndedAfter(s.trace, Step.Emit(d, ev, now));
      StepAlone(s.ops, s.locks, ended, op, o.(code := next));
    case Finish(d, ev, next) =>
      EndedAfter(s.trace, Step.Emit(d, ev, now));
      StepUnderLock(s.ops, s.locks, ended, op, Op(next, o.held, o.open - {d}), d, ended + {d});
  }

  lemma OutsideKeeps(s: System, step: Step)
    requires Inv(s) && Possible(s, Outside(step))
    ensures Inv(Apply(s, Outside(step)))
  {
    EndedAfter(s.trace, step);
    var ended' := Play(s.trace + [step]).book.ended;
    forall op | op in s.ops ensures OpOk(s.ops[op], ended') {
      assert OpOk(s.ops[op], BookOf(s).ended);
    }
  }

  lemma {:induction false} ApplyKeeps(s: System, m: Move)
    requires Inv(s) && Possible(s, m)
    ensures Inv(Apply(s, m))
  {
    match m
    case Start(op, code) => assert HoldsOnly(op, {}, s.locks);
    case Outside(step) => OutsideKeeps(s, step);
    case Advance(op, left, now) => AdvanceKeeps(s, op, left, now);
  }

  lemma {:induction false} RunKeeps(moves: seq<Move>)
    requires Run(moves)
    ensures Inv(After(moves))
  {
    if moves != [] {
      RunKeeps(moves[..|moves| - 1]);
      ApplyKeeps(After(moves[..|moves| - 1]), moves[|moves| - 1]);
    }
  }

  /** Mutual exclusion: no two operations are ever inside the same domain's lock. */
  lemma {:induction false} AtMostOneInside(moves: seq<Move>, a: OpId, b: OpId, d: Domain)
    requires Run(moves)
    requires a in After(moves).ops && b in After(moves).ops
    requires d in After(moves).ops[a].held && d in After(moves).ops[b].held
    ensures a == b
  {
    RunKeeps(moves);
    var s := After(moves);
    assert HoldsOnly(a, s.ops[a].held, s.locks) && HoldsOnly(b, s.ops[b].held, s.locks);
  }

  /** A Release always gives back the releaser's own acquisition, never another operation's. */
  lemma {:induction false} ReleaseIsOfOwnLock(moves: seq<Move>, op: OpId)
    requires Run(moves) && op in After(moves).ops && After(moves).ops[op].code.Unlock?
    ensures var s := After(moves); var d := s.ops[op].code.domain; d in s.locks && s.locks[d] == op
  {
    RunKeeps(moves);
    var s := After(moves);
    assert OpOk(s.ops[op], BookOf(s).ended) && HoldsOnly(op, s.ops[op].held, s.locks);
  }

  /** A try-lock refuses instead of waiting, so by construction every unfinished operation has a next
      move, whatever locks are held, and it brings the operation strictly closer to its end. The only
      other obstacle is the 64-bit generation counter running out. */
  lemma NobodyWaits(moves: seq<Move>, op: OpId, left: bool, now: int)
    requires Run(moves) && op in After(moves).ops && !After(moves).ops[op].code.Done?
    requires forall d :: BookOf(After(moves)).GenOf(d) + 1 < GENERATIONS
    ensures Possible(After(moves), Advance(op, left, now))
    ensures Size(Apply(After(moves), Advance(op, left, now)).ops[op].code) < Size(After(moves).ops[op].code)
  {
  }

  /** A finished operation has left no lock behind. */
  lemma {:induction false} DoneHoldsNothing(moves: seq<Move>, op: OpId, d: Domain)
    requires Run(moves) && op in After(moves).ops && After(moves).ops[op].code.Done?
    ensures d in After(moves).locks ==> After(moves).locks[d] != op
  {
    RunKeeps(moves);
    assert OpOk(After(moves).ops[op], BookOf(After(moves)).ended);
  }

  /** The locks discharge the hub's premise: whatever disciplined operations do, interleaved any
      way with the outside, each run emits at most one terminal event, so the hub's own trace is
      legal and a retention timer never frees a run other than its own. */
  lemma {:induction false} LockedOperationsKeepTimersHarmless(moves: seq<Move>, i: nat)
    requires Run(moves) && Possible(After(moves), Outside(Step.Fire(i)))
    ensures Legal(After(moves).trace + [Step.Fire(i)])
    ensures FreesItsOwnRunOnly(Play(After(moves).trace), i)
  {
    RunKeeps(moves);
    Extend(After(moves).trace, Step.Fire(i));
    TimerFreesExactlyItsOwnRun(After(moves).trace, i);
  }

  // A run that an operation begins, it ends.

  /** What a legal step does to the number of a domain's run while the run has not ended. */
  lemma RunAfter(trace: seq<Step>, step: Step, d: Domain)
    requires Legal(trace) && Allowed(Play(trace), step) && d !in Play(trace).book.ended && step != Step.Begin(d)
    ensures Play(trace + [step]).book.RunOf(d) == Play(trace).book.RunOf(d)
  {
    Extend(trace, step);
    PlayKeeps(trace);
    var b := Play(trace).book;
    if step.Fire? {
      assert Dated(b, b.pending[step.timer]);
    }
  }

  /** The operation has the run of `d` open, under the same number still. */
  predicate StillOpen(s: System, op: OpId, d: Domain, run: nat) {
    op in s.ops && d in s.ops[op].open && BookOf(s).RunOf(d) == run
  }

  /** The operation's next move is to end the run of `d`. */
  predicate EndsRun(s: System, op: OpId, d: Domain, run: nat) {
    StillOpen(s, op, d, run) && s.ops[op].code.Finish? && s.ops[op].code.domain == d
  }

  /** Whichever branch it is on: the event is an error or complete, and the run counts as ended. */
  lemma {:induction false} FinishEndsTheRun(s: System, op: OpId, left: bool, now: int)
    requires Inv(s) && Possible(s, Advance(op, left, now)) && s.ops[op].code.Finish?
    ensures s.ops[op].code.event.status == "error" || s.ops[op].code.event.percent >= 100
    ensures s.ops[op].code.domain in BookOf(Apply(s, Advance(op, left, now))).ended
  {
    var o := s.ops[op];
    assert OpOk(o, BookOf(s).ended);
    EndedAfter(s.trace, Step.Emit(o.code.domain, o.code.event, now));
  }

  lemma {:induction false} MoveKeepsOpen(s: System, m: Move, op: OpId, d: Domain, run: nat)
    requires Inv(s) && Possible(s, m) && StillOpen(s, op, d, run)
    requires !(m.Advance? && m.op == op && EndsRun(s, op, d, run))
    ensures StillOpen(Apply(s, m), op, d, run)
  {
    assert OpOk(s.ops[op], BookOf(s).ended);
    match m
    case Start(_, _) =>
    case Outside(step) => RunAfter(s.trace, step, d);
    case Advance(other, left, now) =>
      var o := s.ops[other];
      assert OpOk(o, BookOf(s).ended);
      match o.code
      case BeginRun(x, next) =>
        assert HoldsOnly(other, o.held, s.locks) && HoldsOnly(op, s.ops[op].held, s.locks);
        RunAfter(s.trace, Step.Begin(x), d);
      case Note(x, ev, next) => RunAfter(s.trace, Step.Emit(x, ev, now), d);
      case Finish(x, ev, next) => RunAfter(s.trace, Step.Emit(x, ev, now), d);
      case _ =>
  }

  lemma AfterPrefix(moves: seq<Move>, n: nat)
    requires Run(moves) && n < |moves|
    ensures Run(moves[..n]) && Run(moves[..n + 1]) && Possible(After(moves[..n]), moves[n])
    ensures After(moves[..n + 1]) == Apply(After(moves[..n]), moves[n])
    decreases |moves|
  {
    if n + 1 == |moves| {
      assert moves[..n + 1] == moves;
    } else {
      AfterPrefix(moves[..|moves| - 1], n);
      assert moves[..|moves| - 1][..n] == moves[..n] && moves[..|moves| - 1][..n + 1] == moves[..n + 1];
    }
  }

  lemma {:induction false} OpenOrEnded(moves: seq<Move>, i: nat, n: nat, op: OpId, d: Domain, run: nat) returns (k: nat)
    requires Run(moves) && i <= n <= |moves| && StillOpen(After(moves[..i]), op, d, run)
    ensures i <= k <= n
    ensures k == n ==> StillOpen(After(moves[..n]), op, d, run)
    ensures k < n ==> moves[k].Advance? && moves[k].op == op && EndsRun(After(moves[..k]), op, d, run)
  {
    hide Inv, Run, After, StillOpen, EndsRun, Apply, Possible;
    k := i;
    if i < n {
      k := OpenOrEnded(moves, i, n - 1, op, d, run);
      if k == n - 1 {
        AfterPrefix(moves, n - 1);
        RunKeeps(moves[..n - 1]);
        if !(moves[k].Advance? && moves[k].op == op && EndsRun(After(moves[..k]), op, d, run)) {
          MoveKeepsOpen(After(moves[..k]), moves[k], op, d, run);
          k := n;
        }
      }
    }
  }

  /** In every interleaving, an operation that has begun a run and is done has itself ended that very run,
      by an error or at 100%, with success or failure alike. */
  lemma {:induction false} BegunRunsAreEnded(moves: seq<Move>, i: nat, op: OpId, d: Domain) returns (k: nat)
    requires Run(moves) && i < |moves| && moves[i].Advance? && moves[i].op == op
    requires op in After(moves[..i]).ops && After(moves[..i]).ops[op].code.BeginRun? && After(moves[..i]).ops[op].code.domain == d
    requires op in After(moves).ops && After(moves).ops[op].code.Done?
    ensures i < k < |moves| && moves[k].Advance? && moves[k].op == op && op in After(moves[..k]).ops
    ensures var code := After(moves[..k]).ops[op].code;
      code.Finish? && code.domain == d && (code.event.status == "error" || code.event.percent >= 100)
    ensures BookOf(After(moves[..k])).RunOf(d) == BookOf(After(moves[..i + 1])).RunOf(d)
    ensures d in BookOf(After(moves[..k + 1])).ended
  {
    AfterPrefix(moves, i);
    var begun := After(moves[..i + 1]);
    assert moves[..|moves|] == moves;
    k := OpenOrEnded(moves, i + 1, |moves|, op, d, BookOf(begun).RunOf(d));
    RunKeeps(moves);
    assert OpOk(After(moves).ops[op], BookOf(After(moves)).ended);
    AfterPrefix(moves, k);
    RunKeeps(moves[..k]);
    FinishEndsTheRun(After(moves[..k]), op, moves[k].left, moves[k].now);
  }

  // The engine's operations.

  function Notes(d: Domain, events: seq<Event>, next: Code): Code {
    if events == [] then next else Note(d, events[0], Notes(d, events[1..], next))
  }

  ghost predicate Quiet(events: seq<Event>) {
    forall e :: e in events ==> !e.Terminal()
  }

  lemma FinishDisciplined(d: Domain, step: string, next: Code, held: set<Domain>, open: set<Domain>)
    requires d in open && Disciplined(next, held, open - {d})
    ensures Disciplined(FinishOp(d, step, next), held, open)
  {
  }

  lemma {:induction false} NotesDisciplined(d: Domain, events: seq<Event>, next: Code, held: set<Domain>, open: set<Domain>)
    requires Quiet(events) && Disciplined(next, held, open)
    ensures Disciplined(Notes(d, events, next), held, open)
  {
    if events != [] {
      NotesDisciplined(d, events[1..], next, held, open);
    }
  }

  const Failure := Event("Failed", "error", "", 0, 0, ZERO_TIME)

  function Success(step: string): Event { Event(step, "done", "", 100, 0, ZERO_TIME) }

  /** finishOp: one terminal event, an error or 100%. */
  function FinishOp(d: Domain, step: string, next: Code): Code {
    Either(Finish(d, Success(step), next), Finish(d, Failure, next))
  }

  /** Deploy, Rollback, StartSite, StopSite, RestartSite, ScaleProcess and the other operations that
      take the lock and begin no run. A deploy takes its snapshot by `createBackup`, under the lock
      it already holds. */
  function PlainOp(d: Domain, events: seq<Event>): Code {
    TryLock(d, Notes(d, events, Unlock(d, Done)), Done)
  }

  /** CreateBackup, RestoreBackup and DestroySite: begin, report, finish, release. */
  function TrackedOp(d: Domain, events: seq<Event>, step: string): Code {
    TryLock(d, BeginRun(d, Notes(d, events, FinishOp(d, step, Unlock(d, Done)))), Done)
  }

  /** CreateSite and UpdateSite may fail before their run begins; once it has begun, either the
      final "Ready" or the deferred failure ends it. `next` is what the caller does afterwards. */
  function CreateOp(d: Domain, events: seq<Event>, next: Code): Code {
    TryLock(d, Either(Unlock(d, next), BeginRun(d, Notes(d, events, FinishOp(d, "Ready", Unlock(d, next))))), next)
  }

  /** Clone holds the source and creates the target inside. It may fail before the target's lock is
      asked for, when the copy or the creation's own checks fail, and at the lock, when the target is
      busy. */
  function CloneOp(source: Domain, target: Domain, before: seq<Event>, events: seq<Event>): Code {
    TryLock(source,
      Either(Unlock(source, Done),
             BeginRun(source, Notes(source, before,
               Either(FinishOp(source, "Cloned", Unlock(source, Done)),
                      CreateOp(target, events, FinishOp(source, "Cloned", Unlock(source, Done))))))),
      Done)
  }

  /** Each takes its site's lock first and is done when refused; a tracked one begins its run at once, and
      the end of a run is a step at 100% or an error. */
  lemma OperationsLockFirst(d: Domain, events: seq<Event>, step: string, next: Code)
    ensures var o := PlainOp(d, events);
      o.TryLock? && o.domain == d && o.busy.Done? && (events == [] ==> o.got == Unlock(d, Done))
    ensures var o := TrackedOp(d, events, step);
      o.TryLock? && o.domain == d && o.busy.Done? && o.got.BeginRun? && o.got.domain == d
    ensures var o := CreateOp(d, events, next);
      o.TryLock? && o.domain == d && o.busy == next && o.got.Either? && o.got.right.BeginRun? && o.got.right.domain == d
    ensures var o := FinishOp(d, step, next);
      && o.Either? && o.left.Finish? && o.right.Finish? && o.left.domain == o.right.domain == d && o.left.next == o.right.next == next
      && o.left.event.percent == 100 && o.left.event.step == step && o.right.event.status == "error"
    ensures events != [] ==> Notes(d, events, next).Note? && Notes(d, events, next).event == events[0]
  {
  }

  lemma OperationsAreDisciplined(d: Domain, events: seq<Event>, step: string)
    requires Quiet(events)
    ensures Disciplined(PlainOp(d, events), {}, {})
    ensures Disciplined(TrackedOp(d, events, step), {}, {})
    ensures Disciplined(CreateOp(d, events, Done), {}, {})
  {
    var last := Unlock(d, Done);
    assert {d} - {d} == {} && Disciplined(last, {d}, {});
    NotesDisciplined(d, events, last, {d}, {});
    FinishDisciplined(d, step, last, {d}, {d});
    NotesDisciplined(d, events, FinishOp(d, step, last), {d}, {d});
    assert {} + {d} == {d};
    CreateDisciplined(d, events, Done, {}, {});
  }

  lemma CreateDisciplined(d: Domain, events: seq<Event>, next: Code, held: set<Domain>, open: set<Domain>)
    requires Quiet(events) && d !in held && open <= held && Disciplined(next, held, open)
    ensures Disciplined(CreateOp(d, events, next), held, open)
  {
    var last := Unlock(d, next);
    assert held + {d} - {d} == held && open - {d} == open && open + {d} - {d} == open;
    assert Disciplined(last, held + {d}, open);
    FinishDisciplined(d, "Ready", last, held + {d}, open + {d});
    NotesDisciplined(d, events, FinishOp(d, "Ready", last), held + {d}, open + {d});
  }

  /** Nested locking: the clone is disciplined exactly when source and target differ, which is the
      check it makes before taking any lock. */
  lemma CloneIsDisciplined(source: Domain, target: Domain, before: seq<Event>, events: seq<Event>)
    requires Quiet(before) && Quiet(events)
    ensures Disciplined(CloneOp(source, target, before, events), {}, {}) <==> source != target
  {
    var last := Unlock(source, Done);
    var inner := FinishOp(source, "Cloned", last);
    assert {source} - {source} == {} && {} + {source} == {source};
    assert Disciplined(last, {source}, {});
    var create := Either(inner, CreateOp(target, events, inner));
    FinishDisciplined(source, "Cloned", last, {source}, {source});
    if source != target {
      CreateDisciplined(target, events, inner, {source}, {source});
    }
    assert Disciplined(create, {source}, {source}) <==> source != target;
    if source != target {
      NotesDisciplined(source, before, create, {source}, {source});
    } else {
      NotesUndisciplined(source, before, create, {source}, {source});
    }
    var begun := BeginRun(source, Notes(source, before, create));
    assert Disciplined(begun, {source}, {}) <==> source != target;
    assert Disciplined(Either(last, begun), {source}, {}) <==> source != target;
  }

  lemma {:induction false} NotesUndisciplined(d: Domain, events: seq<Event>, next: Code, held: set<Domain>, open: set<Domain>)
    requires !Disciplined(next, held, open)
    ensures !Disciplined(Notes(d, events, next), held, open)
  {
    if events != [] {
      NotesUndisciplined(d, events[1..], next, held, open);
    }
  }
}
