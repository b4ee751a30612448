/** Login lockout (internal/engine/loginthrottle.go): failed attempts per account name, kept in a
    map that forgets stale entries. Times are clock readings in nanoseconds, never decreasing and
    later than Go's zero time. */
module LoginThrottle {
  const MAX_FAILURES := 10
  const LOCKOUT := 900_000_000_000  // 15 minutes
  const WINDOW := 900_000_000_000
  const ZERO_TIME := 0

  datatype Attempt = Attempt(failures: nat, firstFail: int, lockedUntil: int)

  type Table = map<string, Attempt>

  predicate LockedIn(t: Table, name: string, now: int) {
    name in t && now < t[name].lockedUntil
  }

  /** The entry of a name after one more failure. */
  function Counted(t: Table, name: string, now: int): Attempt {
    var a := if name !in t || now - t[name].firstFail > WINDOW then Attempt(0, now, ZERO_TIME) else t[name];
    Attempt(a.failures + 1, a.firstFail, if a.failures + 1 >= MAX_FAILURES then now + LOCKOUT else a.lockedUntil)
  }

  predicate Stale(a: Attempt, now: int) {
    now > a.lockedUntil && now - a.firstFail > WINDOW
  }

  function Collected(t: Table, now: int): Table {
    map k | k in t && !Stale(t[k], now) :: t[k]
  }

  function Recorded(t: Table, name: string, now: int): Table {
    Collected(t[name := Counted(t, name, now)], now)
  }

  /** A recorded failure as the code promises it: a window of fifteen minutes, a lock of fifteen minutes at
      the tenth failure in it, and nothing else but stale entries lost. */
  lemma FailureOutcome(t: Table, name: string, now: int)
    requires ZERO_TIME <= now
    ensures var r := Recorded(t, name, now);
      var n := if name in t && now - t[name].firstFail <= 900_000_000_000 then t[name].failures + 1 else 1;
      && name in r && r[name].failures == n
      && r[name].firstFail == (if n == 1 && !(name in t && now - t[name].firstFail <= 900_000_000_000) then now else t[name].firstFail)
      && (n >= 10 ==> r[name].lockedUntil == now + 900_000_000_000 && LockedIn(r, name, now))
      && (n < 10 ==> r[name].lockedUntil == if name in t && now - t[name].firstFail <= 900_000_000_000 then t[name].lockedUntil else 0)
    ensures forall k :: k != name ==>
      (k in Recorded(t, name, now) <==> k in t && (now <= t[k].lockedUntil || now - t[k].firstFail <= 900_000_000_000))
    ensures forall k :: k != name && k in Recorded(t, name, now) ==> Recorded(t, name, now)[k] == t[k]
    ensures LockedIn(t, name, now) <==> name in t && now < t[name].lockedUntil
  {
  }

  class LoginThrottle {
    var attempts: Table

    constructor ()
      ensures attempts == map[]
    {
      attempts := map[];
    }

    method Locked(name: string, now: int) returns (locked: bool)
      ensures locked <==> LockedIn(attempts, name, now)
    {
      locked := name in attempts && now < attempts[name].lockedUntil;
    }

    method RecordFailure(name: string, now: int)
      modifies this
      ensures attempts == Recorded(old(attempts), name, now)
    {
      if name !in attempts || now - attempts[name].firstFail > WINDOW {
        attempts := attempts[name := Attempt(0, now, ZERO_TIME)];
      }
      attempts := attempts[name := attempts[name].(failures := attempts[name].failures + 1)];
      if attempts[name].failures >= MAX_FAILURES {
        attempts := attempts[name := attempts[name].(lockedUntil := now + LOCKOUT)];
      }
      assert attempts == old(attempts)[name := Counted(old(attempts), name, now)];
      Collect(now);
    }

    method Reset(name: string)
      modifies this
      ensures attempts == old(attempts) - {name}
    {
      attempts := attempts - {name};
    }

    method Collect(now: int)
      modifies this
      ensures attempts == Collected(old(attempts), now)
    {
      var todo := attempts.Keys;
      while todo != {}
        invariant todo <= old(attempts).Keys
        invariant attempts == map k | k in old(attempts) && (k in todo || !Stale(old(attempts)[k], now)) :: old(attempts)[k]
      {
        var k :| k in todo;
        if now > attempts[k].lockedUntil && now - attempts[k].firstFail > WINDOW {
          attempts := attempts - {k};
        }
        todo := todo - {k};
      }
    }
  }

  // Eviction cannot be observed.

  datatype Call = Fail(name: string, at: int) | Clear(name: string, at: int) | Ask(name: string, at: int)

  function Lean(t: Table, c: Call): Table {
    match c
    case Fail(name, now) => Recorded(t, name, now)
    case Clear(name, _) => t - {name}
    case Ask(_, _) => t
  }

  /** The throttle that never forgets. */
  function Full(t: Table, c: Call): Table {
    match c
    case Fail(name, now) => t[name := Counted(t, name, now)]
    case Clear(name, _) => t - {name}
    case Ask(_, _) => t
  }

  predicate Clocked(calls: seq<Call>, now: int) {
    && (forall i :: 0 <= i < |calls| ==> ZERO_TIME < calls[i].at <= now)
    && (forall i, j :: 0 <= i < j < |calls| ==> calls[i].at <= calls[j].at)
  }

  function LeanAfter(calls: seq<Call>): Table {
    if calls == [] then map[] else Lean(LeanAfter(calls[..|calls| - 1]), calls[|calls| - 1])
  }

  function FullAfter(calls: seq<Call>): Table {
    if calls == [] then map[] else Full(FullAfter(calls[..|calls| - 1]), calls[|calls| - 1])
  }

  ghost predicate Shadows(lean: Table, full: Table, now: int) {
    && (forall k :: k in lean ==> k in full && lean[k] == full[k])
    && (forall k :: k in full && k !in lean ==> Stale(full[k], now))
  }

  lemma CallShadows(lean: Table, full: Table, c: Call, before: int)
    requires Shadows(lean, full, before) && before <= c.at
    ensures Shadows(Lean(lean, c), Full(full, c), c.at)
  {
  }

  lemma {:induction false} RunShadows(calls: seq<Call>, now: int)
    requires Clocked(calls, now)
    ensures Shadows(LeanAfter(calls), FullAfter(calls), now)
  {
    if calls != [] {
      var n := |calls| - 1;
      var before := if n > 0 then calls[n - 1].at else ZERO_TIME;
      RunShadows(calls[..n], before);
      CallShadows(LeanAfter(calls[..n]), FullAfter(calls[..n]), calls[n], before);
    }
  }

  /** For every run under a monotone clock, the throttle with garbage collection answers every
      question, and counts the next failure, exactly as the one that never forgets. */
  lemma {:induction false} EvictionIsUnobservable(calls: seq<Call>, name: string, now: int)
    requires Clocked(calls, now)
    ensures LockedIn(LeanAfter(calls), name, now) <==> LockedIn(FullAfter(calls), name, now)
    ensures Counted(LeanAfter(calls), name, now) == Counted(FullAfter(calls), name, now)
  {
    RunShadows(calls, now);
  }

  // Guarded logins: every attempt asks Locked first.

  datatype Outcome = Wrong | Unfinished | Right

  datatype Login = Login(name: string, outcome: Outcome, at: int)

  /** One login: refused while locked, else a failure is recorded, a success resets, and an attempt
      that only lacks its second factor does neither. */
  function Guarded(t: Table, l: Login): Table {
    if LockedIn(t, l.name, l.at) then t else
    match l.outcome
    case Wrong => Recorded(t, l.name, l.at)
    case Unfinished => t
    case Right => t - {l.name}
  }

  function TableAfter(logins: seq<Login>): Table {
    if logins == [] then map[] else Guarded(TableAfter(logins[..|logins| - 1]), logins[|logins| - 1])
  }

  /** A recorded failure, and which failure of its entry it was. */
  datatype Failure = Failure(at: int, count: nat)

  /** The failures recorded for `name` since its last successful login. */
  function History(logins: seq<Login>, name: string): seq<Failure> {
    if logins == [] then [] else
    Noted(TableAfter(logins[..|logins| - 1]), History(logins[..|logins| - 1], name), logins[|logins| - 1], name)
  }

  function Noted(t: Table, h: seq<Failure>, l: Login, name: string): seq<Failure> {
    if l.name != name || LockedIn(t, name, l.at) then h else
    match l.outcome
    case Wrong => h + [Failure(l.at, Counted(t, name, l.at).failures)]
    case Unfinished => h
    case Right => []
  }

  predicate InTime(logins: seq<Login>, now: int) {
    && (forall i :: 0 <= i < |logins| ==> ZERO_TIME < logins[i].at <= now)
    && (forall i, j :: 0 <= i < j < |logins| ==> logins[i].at <= logins[j].at)
  }

  /** How failures of one name can follow one another: a full entry pauses them for LOCKOUT, and a
      new entry starts only after the first failure of the one before has left the window. */
  ghost predicate Spaced(h: seq<Failure>) {
    && (forall j :: 0 <= j < |h| ==> 1 <= h[j].count <= j + 1)
    && (forall j :: 0 < j < |h| ==> Follows(h, j))
  }

  ghost predicate Follows(h: seq<Failure>, j: nat)
    requires 0 < j < |h| && 1 <= h[j - 1].count <= j
  {
    && h[j - 1].at <= h[j].at
    && (h[j - 1].count >= MAX_FAILURES ==> h[j].at >= h[j - 1].at + LOCKOUT)
    && (h[j].count == h[j - 1].count + 1 || (h[j].count == 1 && h[j].at > h[j - h[j - 1].count].at + WINDOW))
  }

  /** The entry of `name` against its history. */
  ghost predicate Explains(t: Table, name: string, h: seq<Failure>, now: int) {
    if h == [] then name !in t else
    var last := h[|h| - 1];
    1 <= last.count <= |h| && last.at <= now &&
    var a := Attempt(last.count, h[|h| - last.count].at, if last.count >= MAX_FAILURES then last.at + LOCKOUT else ZERO_TIME);
    if name in t then t[name] == a else Stale(a, now)
  }

  lemma WrongKeeps(t: Table, name: string, h: seq<Failure>, before: int, now: int)
    requires Spaced(h) && Explains(t, name, h, before) && before <= now && ZERO_TIME < now
    requires !LockedIn(t, name, now)
    ensures var h' := h + [Failure(now, Counted(t, name, now).failures)];
            Spaced(h') && Explains(Recorded(t, name, now), name, h', now)
  {
    var c := Counted(t, name, now);
    var h' := h + [Failure(now, c.failures)];
    if h != [] {
      var last := h[|h| - 1];
      assert Follows(h', |h|);
      assert forall j :: 0 < j < |h| ==> Follows(h, j) ==> Follows(h', j);
    }
    assert h'[|h'| - c.failures].at == c.firstFail;
  }

  lemma LoginKeeps(t: Table, h: seq<Failure>, l: Login, name: string, before: int)
    requires Spaced(h) && Explains(t, name, h, before) && before <= l.at && ZERO_TIME < l.at
    ensures Spaced(Noted(t, h, l, name)) && Explains(Guarded(t, l), name, Noted(t, h, l, name), l.at)
  {
    if l.name == name && !LockedIn(t, name, l.at) && l.outcome.Wrong? {
      WrongKeeps(t, name, h, before, l.at);
    }
  }

  lemma {:induction false} LoginsKeep(logins: seq<Login>, name: string, now: int)
    requires InTime(logins, now) && ZERO_TIME < now
    ensures Spaced(History(logins, name)) && Explains(TableAfter(logins), name, History(logins, name), now)
  {
    if logins != [] {
      var n := |logins| - 1;
      var before := if n > 0 then logins[n - 1].at else logins[n].at;
      LoginsKeep(logins[..n], name, before);
      LoginKeeps(TableAfter(logins[..n]), History(logins[..n], name), logins[n], name, before);
    }
  }

  /** From failure `i`, either a new entry starts within the next `n` failures, the first one at
      `q`, or the count has simply gone up by `n`. */
  lemma {:induction false} NextEntry(h: seq<Failure>, i: nat, n: nat) returns (q: nat)
    requires Spaced(h) && i + n < |h|
    ensures i <= q <= i + n
    ensures q == i ==> h[i + n].count == h[i].count + n
    ensures q > i ==> h[q].count == 1 && h[q - 1].count == h[i].count + (q - 1 - i)
  {
    if n == 0 {
      q := i;
    } else {
      q := NextEntry(h, i, n - 1);
      if q == i {
        assert Follows(h, i + n);
        if h[i + n].count != h[i].count + n {
          q := i + n;
        }
      }
    }
  }

  lemma {:induction false} Monotone(h: seq<Failure>, i: nat, j: nat)
    requires Spaced(h) && i <= j < |h|
    ensures h[i].at <= h[j].at
  {
    if i < j {
      Monotone(h, i, j - 1);
      assert Follows(h, j);
    }
  }

  /** Inside less than a window, no failure but the last may be a locking one. */
  lemma NotLocking(h: seq<Failure>, i: nat, j: nat, k: nat)
    requires Spaced(h) && i <= j < k < |h| && h[k].at < h[i].at + WINDOW
    ensures h[j].count < MAX_FAILURES
  {
    Monotone(h, i, j);
    Monotone(h, j + 1, k);
    assert Follows(h, j + 1);
  }

  /** Failure i + 18 comes at least a window after failure i. */
  lemma EighteenApart(h: seq<Failure>, i: nat)
    requires Spaced(h) && i + 18 < |h|
    ensures h[i + 18].at >= h[i].at + WINDOW
  {
    if h[i + 18].at < h[i].at + WINDOW {
      if h[i].count == 1 {
        NotLocking(h, i, i + 9, i + 18);
        var q := NextEntry(h, i, 9);
        assert Follows(h, q);
        Monotone(h, q, i + 18);
      } else {
        NotLocking(h, i, i + 8, i + 18);
        var q := NextEntry(h, i, 8);
        NotLocking(h, i, q + 9, i + 18);
        var r := NextEntry(h, q, 9);
        assert Follows(h, r);
        Monotone(h, i, q);
        Monotone(h, r, i + 18);
      }
    }
  }

  /** How many of the failures fall in [from, to). */
  function Within(h: seq<Failure>, from: int, to: int): nat {
    if h == [] then 0
    else Within(h[..|h| - 1], from, to) + if from <= h[|h| - 1].at < to then 1 else 0
  }

  /** The failures in a span form one block, so many of them lie far apart by index. */
  lemma {:induction false} BlockOf(h: seq<Failure>, from: int, to: int) returns (i: nat)
    requires Spaced(h) && Within(h, from, to) > 0
    ensures i < |h| && from <= h[i].at
    ensures exists j :: i + Within(h, from, to) - 1 <= j < |h| && h[j].at < to
  {
    var n := |h| - 1;
    var init := h[..n];
    assert Spaced(init) by {
      assert forall j :: 0 < j < n ==> Follows(h, j) ==> Follows(init, j);
    }
    if Within(init, from, to) == 0 {
      i := n;
    } else {
      i := BlockOf(init, from, to);
      var j :| i + Within(init, from, to) - 1 <= j < |init| && init[j].at < to;
      if from <= h[n].at < to {
        assert i + Within(h, from, to) - 1 <= n;
      } else {
        assert h[j].at < to;
      }
    }
  }

  /** In every run of guarded logins at non-decreasing times, no half-open span of fifteen minutes
      holds more than 18 = 2 * 10 - 2 failures recorded for a name since its last success. */
  lemma {:induction false} AtMostEighteenFailuresPerWindow(logins: seq<Login>, name: string, now: int, from: int)
    requires InTime(logins, now) && ZERO_TIME < now
    ensures Within(History(logins, name), from, from + WINDOW) <= 18
  {
    LoginsKeep(logins, name, now);
    var h := History(logins, name);
    if Within(h, from, from + WINDOW) > 18 {
      var i := BlockOf(h, from, from + WINDOW);
      var j :| i + Within(h, from, from + WINDOW) - 1 <= j < |h| && h[j].at < from + WINDOW;
      EighteenApart(h, i);
      Monotone(h, i + 18, j);
    }
  }

  // The bound is reached.

  function Burst(name: string, at: int, k: nat): seq<Login> { seq(k, _ => Login(name, Wrong, at)) }

  lemma OneMoreWrong(logins: seq<Login>, name: string, at: int, from: int)
    requires !LockedIn(TableAfter(logins), name, at)
    ensures var t := TableAfter(logins); TableAfter(logins + [Login(name, Wrong, at)]) == Recorded(t, name, at)
    ensures Within(History(logins + [Login(name, Wrong, at)], name), from, from + WINDOW)
            == Within(History(logins, name), from, from + WINDOW) + if from <= at < from + WINDOW then 1 else 0
  {
  }

  /** The entry of a name that is not locked, `k` failures into its window. */
  predicate Counting(t: Table, name: string, at: int, k: nat, firstFail: int) {
    && name in t && t[name].failures == k && t[name].firstFail == firstFail
    && at - firstFail <= WINDOW && (k < MAX_FAILURES ==> t[name].lockedUntil == ZERO_TIME)
  }

  lemma OneMoreCounts(t: Table, name: string, at: int, k: nat, firstFail: int)
    requires Counting(t, name, at, k, firstFail) && k < MAX_FAILURES && ZERO_TIME < at
    ensures !LockedIn(t, name, at) && Counting(Recorded(t, name, at), name, at, k + 1, firstFail)
  {
  }

  lemma {:induction false} BurstCounts(logins: seq<Login>, name: string, at: int, k: nat, from: int, n: nat, firstFail: int)
    requires ZERO_TIME < at && Counting(TableAfter(logins), name, at, n, firstFail) && n + k <= MAX_FAILURES
    ensures Counting(TableAfter(logins + Burst(name, at, k)), name, at, n + k, firstFail)
    ensures Within(History(logins + Burst(name, at, k), name), from, from + WINDOW)
            == Within(History(logins, name), from, from + WINDOW) + if from <= at < from + WINDOW then k else 0
  {
    hide TableAfter, History, Within, Counting, Recorded, LockedIn;
    if k == 0 {
      assert logins + Burst(name, at, 0) == logins;
    } else {
      BurstCounts(logins, name, at, k - 1, from, n, firstFail);
      OneMoreCounts(TableAfter(logins + Burst(name, at, k - 1)), name, at, n + k - 1, firstFail);
      OneMoreWrong(logins + Burst(name, at, k - 1), name, at, from);
      assert logins + Burst(name, at, k) == (logins + Burst(name, at, k - 1)) + [Login(name, Wrong, at)];
    }
  }

  lemma OneFailure(name: string)
    ensures var first := [Login(name, Wrong, 1)];
      && Counting(TableAfter(first), name, 1 + WINDOW, 1, 1)
      && Within(History(first, name), 1 + WINDOW, 1 + WINDOW + WINDOW) == 0
  {
    OneMoreWrong([], name, 1, 1 + WINDOW);
    assert [] + [Login(name, Wrong, 1)] == [Login(name, Wrong, 1)];
  }

  lemma NineFailures(name: string)
    ensures var logins := [Login(name, Wrong, 1)] + Burst(name, 1 + WINDOW, 8); var t := TableAfter(logins);
            && name in t && t[name].failures == 9 && t[name].firstFail == 1 && t[name].lockedUntil == ZERO_TIME
            && Within(History(logins, name), 1 + WINDOW, 1 + WINDOW + WINDOW) == 8
  {
    hide TableAfter, History, Burst, Within;
    var first := [Login(name, Wrong, 1)];
    OneFailure(name);
    BurstCounts(first, name, 1 + WINDOW, 8, 1 + WINDOW, 1, 1);
  }

  function Eighteen(name: string): seq<Login> {
    [Login(name, Wrong, 1)] + Burst(name, 1 + WINDOW, 8) + [Login(name, Wrong, 2 + WINDOW)] + Burst(name, 2 + WINDOW, 9)
  }

  /** One failure, eight more as its window closes, and a full new entry right after it. */
  lemma EighteenFailuresCanFallInOneWindow(name: string)
    ensures InTime(Eighteen(name), 2 + WINDOW)
    ensures Within(History(Eighteen(name), name), 1 + WINDOW, 1 + WINDOW + WINDOW) == 18
  {
    NineFailures(name);
    var nine := [Login(name, Wrong, 1)] + Burst(name, 1 + WINDOW, 8);
    OneMoreWrong(nine, name, 2 + WINDOW, 1 + WINDOW);
    BurstCounts(nine + [Login(name, Wrong, 2 + WINDOW)], name, 2 + WINDOW, 9, 1 + WINDOW, 1, 2 + WINDOW);
  }

  // Locks last.

  lemma {:induction false} LockOutlastsLogins(t: Table, name: string, logins: seq<Login>, until: int)
    requires name in t && t[name].lockedUntil == until
    requires forall i :: 0 <= i < |logins| ==> logins[i].at < until
    ensures var t' := Replay(t, logins); name in t' && t'[name] == t[name]
  {
    if logins != [] {
      LockOutlastsLogins(t, name, logins[..|logins| - 1], until);
    }
  }

  function Replay(t: Table, logins: seq<Login>): Table {
    if logins == [] then t else Guarded(Replay(t, logins[..|logins| - 1]), logins[|logins| - 1])
  }

  /** The tenth failure at time `at` locks the name throughout [at, at + 15 min), whatever guarded
      logins, of any name and any outcome, come in between. */
  lemma {:induction false} LockHoldsItsFullTime(t: Table, name: string, at: int, logins: seq<Login>, now: int)
    requires !LockedIn(t, name, at) && Counted(t, name, at).failures >= MAX_FAILURES
    requires forall i :: 0 <= i < |logins| ==> at <= logins[i].at <= now
    requires at <= now < at + LOCKOUT
    ensures LockedIn(Replay(Guarded(t, Login(name, Wrong, at)), logins), name, now)
  {
    var t' := Guarded(t, Login(name, Wrong, at));
    LockOutlastsLogins(t', name, logins, at + LOCKOUT);
  }

  /** RecordFailure alone does not keep a lock: called on a locked name, which concurrent logins can
      do, it starts a new entry once the first failure has left the window. The lock survives
      exactly while that first failure is still inside. */
  lemma UnguardedFailureKeepsLockIffInWindow(t: Table, name: string, now: int)
    requires LockedIn(t, name, now) && t[name].failures >= MAX_FAILURES && ZERO_TIME < now
    ensures LockedIn(Recorded(t, name, now), name, now) <==> now - t[name].firstFail <= WINDOW
  {
  }
}
