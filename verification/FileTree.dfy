/** A file system as the backup code sees it: paths are sequences of components, symlinks are followed
    as the system does, and an operation may fail at any point. */
module FileTree {
  type Path = seq<string>
  type Bytes = seq<bv8>

  datatype Node = Dir | File(bytes: Bytes) | Symlink(absolute: bool, target: seq<string>)
  datatype Maybe = Absent | Present(node: Node)

  type Fs = map<Path, Node>

  datatype Option<T> = None | Some(value: T)

  function At(fs: Fs, p: Path): Maybe { if p in fs then Present(fs[p]) else Absent }

  predicate IsLink(m: Maybe) { m.Present? && m.node.Symlink? }

  function Parent(p: Path): Path
    requires p != []
  {
    p[..|p| - 1]
  }

  predicate ProperName(c: string) { c != "" && c != "." && c != ".." }

  predicate Proper(p: Path) { forall c :: c in p ==> ProperName(c) }

  /** Every node stands in a directory, and the topmost is no symlink. */
  predicate Tree(fs: Fs) {
    && !IsLink(At(fs, []))
    && forall p :: p in fs && p != [] ==> At(fs, Parent(p)) == Present(Dir)
  }

  // ---- Following a path ----

  const MAX_LINKS: nat := 40

  datatype Way = Lost | Found(path: Path, hops: nat)

  /** Where `.`, `..` and an empty component lead. */
  function Special(done: Path, c: string): Path { if c == ".." && done != [] then Parent(done) else done }

  /** From the directory `done` along `rest`, with `hops` symlinks left to follow. A missing component
      is passed by its name, but neither `.` nor `..` leads on from it. */
  function Resolve(fs: Fs, done: Path, rest: seq<string>, hops: nat): Way
    decreases hops, |rest|
  {
    if rest == [] then Found(done, hops)
    else
      var c, tail := rest[0], rest[1..];
      if !ProperName(c) then
        if At(fs, done) != Present(Dir) then Lost else Resolve(fs, Special(done, c), tail, hops)
      else
        var next := done + [c];
        if !IsLink(At(fs, next)) then Resolve(fs, next, tail, hops)
        else if hops == 0 then Lost
        else Resolve(fs, if fs[next].absolute then [] else done, fs[next].target + tail, hops - 1)
  }

  /** Where the path leads. */
  function Real(fs: Fs, p: Path): Way { Resolve(fs, [], p, MAX_LINKS) }

  /** Where the path itself stands: its last component is not followed. */
  function Spot(fs: Fs, p: Path): Way {
    if p == [] then Found([], MAX_LINKS) else Extended(Real(fs, Parent(p)), [p[|p| - 1]])
  }

  function Extended(w: Way, rel: Path): Way {
    match w
    case Lost => Lost
    case Found(path, hops) => Found(path + rel, hops)
  }

  function AtEnd(fs: Fs, w: Way): Maybe { if w.Found? then At(fs, w.path) else Absent }

  function Lstat(fs: Fs, p: Path): Maybe { AtEnd(fs, Spot(fs, p)) }

  function Stat(fs: Fs, p: Path): Maybe { AtEnd(fs, Real(fs, p)) }

  /** No symlink stands at the path or above it. */
  predicate Direct(fs: Fs, p: Path) {
    forall n :: 0 <= n <= |p| ==> !IsLink(At(fs, p[..n]))
  }

  lemma {:induction false} ResolveOn(fs: Fs, done: Path, rest: seq<string>, more: seq<string>, hops: nat)
    ensures Resolve(fs, done, rest + more, hops) ==
      var w := Resolve(fs, done, rest, hops); if w.Lost? then Lost else Resolve(fs, w.path, more, w.hops)
    decreases hops, |rest|
  {
    if rest == [] {
      assert rest + more == more;
    } else {
      var c, tail := rest[0], rest[1..];
      assert (rest + more)[1..] == tail + more;
      var next := done + [c];
      if !ProperName(c) {
        ResolveOn(fs, Special(done, c), tail, more, hops);
      } else if !IsLink(At(fs, next)) {
        ResolveOn(fs, next, tail, more, hops);
      } else if hops > 0 {
        ResolveOn(fs, if fs[next].absolute then [] else done, fs[next].target + tail, more, hops - 1);
        assert fs[next].target + tail + more == fs[next].target + (tail + more);
      }
    }
  }

  /** One component further. */
  lemma RealStep(fs: Fs, p: Path)
    requires p != [] && ProperName(p[|p| - 1])
    ensures Real(fs, Parent(p)).Lost? ==> Real(fs, p).Lost?
    ensures !IsLink(Lstat(fs, p)) ==> Real(fs, p) == Spot(fs, p)
    ensures Tree(fs) && Stat(fs, Parent(p)) != Present(Dir) ==> !IsLink(Lstat(fs, p)) && Stat(fs, p) == Absent
  {
    var c := p[|p| - 1];
    assert p == Parent(p) + [c] && [c][1..] == [];
    ResolveOn(fs, [], Parent(p), [c], MAX_LINKS);
  }

  lemma {:induction false} ResolvedIsDirect(fs: Fs, done: Path, rest: seq<string>, hops: nat)
    requires Direct(fs, done) && !IsLink(At(fs, []))
    ensures var w := Resolve(fs, done, rest, hops); w.Found? ==> Direct(fs, w.path)
    decreases hops, |rest|
  {
    if rest != [] {
      var c, tail := rest[0], rest[1..];
      var next := done + [c];
      if !ProperName(c) {
        var up := Special(done, c);
        assert forall n :: 0 <= n <= |up| ==> up[..n] == done[..n];
        ResolvedIsDirect(fs, up, tail, hops);
      } else if !IsLink(At(fs, next)) {
        assert forall n :: 0 <= n <= |next| ==> next[..n] == if n == |next| then next else done[..n];
        ResolvedIsDirect(fs, next, tail, hops);
      } else if hops > 0 {
        ResolvedIsDirect(fs, if fs[next].absolute then [] else done, fs[next].target + tail, hops - 1);
      }
    }
  }

  lemma {:induction false} DirectResolves(fs: Fs, p: Path, hops: nat)
    requires Proper(p) && Direct(fs, p)
    ensures Resolve(fs, [], p, hops) == Found(p, hops)
  {
    if p != [] {
      var c := p[|p| - 1];
      assert forall n :: 0 <= n <= |Parent(p)| ==> Parent(p)[..n] == p[..n];
      DirectResolves(fs, Parent(p), hops);
      assert p == p[..|p|] == Parent(p) + [c] && [c][1..] == [];
      ResolveOn(fs, [], Parent(p), [c], hops);
      assert ProperName(c) && !IsLink(At(fs, p)) && Resolve(fs, p, [], hops) == Found(p, hops);
    }
  }

  lemma DirectIsReal(fs: Fs, p: Path)
    requires Proper(p) && Direct(fs, p)
    ensures Real(fs, p) == Found(p, MAX_LINKS)
  {
    DirectResolves(fs, p, MAX_LINKS);
  }

  /** A path leads to itself if and only if no symlink stands at it or above it. */
  lemma LeadsToItselfIffDirect(fs: Fs, p: Path)
    requires Tree(fs) && Proper(p)
    ensures Real(fs, p).Found? && Real(fs, p).path == p <==> Direct(fs, p)
  {
    if Direct(fs, p) {
      DirectIsReal(fs, p);
    }
    ResolvedIsDirect(fs, [], p, MAX_LINKS);
  }

  /** The first `n` components name a symlink to `away`, the only one that the path meets. */
  ghost predicate RedirectedAt(fs: Fs, p: Path, n: nat, away: Path)
    requires 0 < n <= |p|
  {
    && Direct(fs, p[..n - 1]) && At(fs, p[..n]) == Present(Symlink(true, away))
    && Proper(away) && Direct(fs, away + p[n..])
  }

  lemma LinkLeadsAway(fs: Fs, p: Path, n: nat, away: Path)
    requires Proper(p) && 0 < n <= |p| && RedirectedAt(fs, p, n, away)
    ensures Real(fs, p) == Found(away + p[n..], MAX_LINKS - 1)
  {
    hide Direct;
    var above, rest := p[..n - 1], p[n - 1..];
    assert p == above + rest && rest[0] == p[n - 1] && rest[1..] == p[n..] && above + [p[n - 1]] == p[..n];
    ResolveOn(fs, [], above, rest, MAX_LINKS);
    DirectResolves(fs, above, MAX_LINKS);
    DirectResolves(fs, away + p[n..], MAX_LINKS - 1);
    assert p[n - 1] in p && IsLink(At(fs, above + [rest[0]]));
    assert Resolve(fs, above, rest, MAX_LINKS) == Resolve(fs, [], away + p[n..], MAX_LINKS - 1);
  }

  /** A relative symlink leads on from its own directory, `..` to the one above. */
  lemma RelativeLinkLeadsOn(fs: Fs, p: Path, c: string, away: Path)
    requires Tree(fs) && Proper(p) && ProperName(c) && Direct(fs, p) && p != [] && At(fs, p) == Present(Dir)
    requires At(fs, p + [c]) == Present(Symlink(false, [".."] + away))
    requires Proper(away) && Direct(fs, Parent(p) + away)
    ensures Real(fs, p + [c]) == Found(Parent(p) + away, MAX_LINKS - 1)
  {
    hide Direct;
    DirectIsReal(fs, p);
    ResolveOn(fs, [], p, [c], MAX_LINKS);
    var rest := [".."] + away;
    assert [c][1..] == [] && rest + [] == rest && rest[0] == ".." && rest[1..] == away;
    assert Resolve(fs, p, [c], MAX_LINKS) == Resolve(fs, p, rest, MAX_LINKS - 1) == Resolve(fs, Parent(p), away, MAX_LINKS - 1);
    assert Direct(fs, Parent(p)) by {
      hide *;
      DirectAbove(fs, p);
    }
    ProperConcat(p, away);
    DirectResolves(fs, Parent(p), MAX_LINKS - 1);
    DirectResolves(fs, Parent(p) + away, MAX_LINKS - 1);
    ResolveOn(fs, [], Parent(p), away, MAX_LINKS - 1);
  }

  lemma DirectAbove(fs: Fs, p: Path)
    requires p != [] && Direct(fs, p)
    ensures Direct(fs, Parent(p))
  {
    assert forall n :: 0 <= n <= |Parent(p)| ==> Parent(p)[..n] == p[..n];
  }

  lemma ProperConcat(p: Path, away: Path)
    requires p != [] && Proper(p) && Proper(away)
    ensures Proper(Parent(p)) && Proper(Parent(p) + away)
  {
  }

  /** A symlink to itself leads nowhere. */
  lemma {:induction false} SelfLinkIsLost(fs: Fs, p: Path, hops: nat)
    requires Proper(p) && p != [] && Direct(fs, Parent(p)) && At(fs, p) == Present(Symlink(true, p))
    ensures Resolve(fs, [], p, hops).Lost?
  {
    hide Direct;
    var c := p[|p| - 1];
    assert p == Parent(p) + [c] && [c][1..] == [] && p + [] == p;
    ProperConcat(p, []);
    ResolveOn(fs, [], Parent(p), [c], hops);
    DirectResolves(fs, Parent(p), hops);
    assert ProperName(c) && c in p;
    if hops > 0 {
      SelfLinkIsLost(fs, p, hops - 1);
    }
  }

  lemma {:induction false} MissingStaysMissing(fs: Fs, done: Path, rest: seq<string>, hops: nat)
    requires Tree(fs) && done !in fs
    ensures var w := Resolve(fs, done, rest, hops); w.Found? ==> w.path !in fs
    decreases |rest|
  {
    if rest != [] && ProperName(rest[0]) {
      var next := done + [rest[0]];
      assert Parent(next) == done;
      MissingStaysMissing(fs, next, rest[1..], hops);
    }
  }

  ghost predicate Within(fs: Fs, larger: Fs) { forall p :: p in fs ==> At(larger, p) == At(fs, p) }

  /** A way to something that exists is the same on any disk that holds more. */
  lemma {:induction false} WayToNodeIsStable(fs: Fs, larger: Fs, done: Path, rest: seq<string>, hops: nat)
    requires Tree(fs) && Within(fs, larger)
    requires var w := Resolve(fs, done, rest, hops); w.Found? && w.path in fs
    ensures Resolve(larger, done, rest, hops) == Resolve(fs, done, rest, hops)
    decreases hops, |rest|
  {
    hide Tree;
    if rest != [] {
      var c, tail := rest[0], rest[1..];
      var next := done + [c];
      if !ProperName(c) {
        WayToNodeIsStable(fs, larger, Special(done, c), tail, hops);
      } else if next !in fs {
        MissingStaysMissing(fs, next, tail, hops);
      } else if !IsLink(At(fs, next)) {
        WayToNodeIsStable(fs, larger, next, tail, hops);
      } else {
        WayToNodeIsStable(fs, larger, if fs[next].absolute then [] else done, fs[next].target + tail, hops - 1);
      }
    }
  }

  // ---- Changes ----

  ghost predicate SymlinkBetween(fs: Fs, root: Path, dest: Path) {
    exists n :: |root| < n < |dest| && IsLink(Lstat(fs, dest[..n]))
  }

  /** Something stands on the way that leads to no directory. */
  ghost predicate Barred(fs: Fs, dir: Path) {
    exists n :: 0 <= n <= |dir| && Lstat(fs, dir[..n]).Present? && Stat(fs, dir[..n]) != Present(Dir)
  }

  /** Only nodes at or below `spot` have changed, and missing directories above it have been made. */
  ghost predicate Touched(fs: Fs, fs': Fs, spot: Path) {
    forall p :: !(spot <= p) ==> At(fs', p) == At(fs, p) || (p < spot && At(fs, p) == Absent && At(fs', p) == Present(Dir))
  }

  /** Nothing has changed but for missing directories made on the way to `dir`. */
  ghost predicate MadeOnly(fs: Fs, fs': Fs, dir: Path) {
    forall p :: At(fs', p) == At(fs, p) || (p <= dir && At(fs, p) == Absent && At(fs', p) == Present(Dir))
  }

  function Without(fs: Fs, spot: Path): Fs { map p | p in fs && !(spot <= p) :: fs[p] }

  /** A removal that may have stopped half-way. */
  predicate Trimmed(fs: Fs, left: Fs, spot: Path) {
    && (forall p :: p in left ==> p in fs && left[p] == fs[p])
    && (forall p :: p in fs && !(spot <= p) ==> p in left)
    && Tree(left)
  }

  lemma {:induction false} AboveIsDir(fs: Fs, p: Path, n: nat)
    requires Tree(fs) && p in fs && n < |p|
    ensures At(fs, p[..n]) == Present(Dir)
  {
    assert At(fs, Parent(p)) == Present(Dir);
    if n < |p| - 1 {
      hide Tree;
      AboveIsDir(fs, Parent(p), n);
      assert Parent(p)[..n] == p[..n];
    }
  }

  lemma NewDirKeepsTree(fs: Fs, p: Path)
    requires Tree(fs) && (p != [] ==> At(fs, Parent(p)) == Present(Dir)) && (p in fs ==> fs[p].Dir?)
    ensures Tree(fs[p := Dir])
  {
  }

  /** Where the directory stands already, nothing is made. */
  lemma NothingMissing(fs: Fs, fs': Fs, dir: Path)
    requires Tree(fs) && MadeOnly(fs, fs', dir) && dir in fs
    ensures fs' == fs
  {
    forall p
      ensures At(fs', p) == At(fs, p)
    {
      if p <= dir {
        assert p == dir[..|p|];
        assert dir[..|dir|] == dir;
        if |p| < |dir| {
          AboveIsDir(fs, dir, |p|);
        }
      }
    }
    SameEverywhere(fs, fs');
  }

  lemma SameEverywhere(fs: Fs, fs': Fs)
    requires forall p :: At(fs', p) == At(fs, p)
    ensures fs' == fs
  {
    forall p
      ensures p in fs' <==> p in fs
      ensures p in fs ==> fs'[p] == fs[p]
    {
      assert At(fs', p) == At(fs, p);
    }
  }

  lemma WithoutIsTree(fs: Fs, spot: Path)
    requires Tree(fs)
    ensures Tree(Without(fs, spot)) && Trimmed(fs, Without(fs, spot), spot)
  {
    var left := Without(fs, spot);
    forall p | p in left && p != []
      ensures At(left, Parent(p)) == Present(Dir)
    {
      assert At(fs, Parent(p)) == Present(Dir);
      assert !(spot <= Parent(p));
    }
  }

  /** Missing directories have been made up to where the path leads. */
  ghost predicate Fresh(before: Fs, fs: Fs, w: Way) {
    w.Found? && w.path !in before && MadeOnly(before, fs, w.path)
  }

  /** The state of `os.MkdirAll` when the directories above `p` have been dealt with. */
  ghost predicate MadeAbove(before: Fs, fs: Fs, p: Path) {
    && Tree(fs)
    && (p != [] ==> Stat(fs, Parent(p)) == Present(Dir) && Real(fs, Parent(p)) == Real(before, Parent(p)))
    && (fs == before || (p != [] && Fresh(before, fs, Real(before, Parent(p)))))
  }

  lemma ChildIsMissing(fs: Fs, p: Path, c: string)
    requires Tree(fs) && p !in fs
    ensures p + [c] !in fs
  {
    assert Parent(p + [c]) == p;
  }

  /** Once a directory had to be made, nothing stands below it. */
  lemma FreshMeetsNothing(before: Fs, fs: Fs, p: Path)
    requires Proper(p) && Tree(before) && MadeAbove(before, fs, p)
    ensures Spot(fs, p).Found? && Real(before, p) == Real(fs, p)
    ensures fs == before || Lstat(before, p) == Absent
    ensures fs == before || Lstat(fs, p) == Stat(fs, p) == Absent
  {
    hide Resolve, Tree;
    if p != [] && fs != before {
      var c := p[|p| - 1];
      ChildIsMissing(before, Real(before, Parent(p)).path, c);
      RealStep(before, p);
      RealStep(fs, p);
    }
  }

  lemma MakeOne(before: Fs, fs: Fs, p: Path)
    requires Proper(p) && Tree(before) && MadeAbove(before, fs, p) && Lstat(fs, p) == Absent
    ensures Spot(fs, p).Found?
    ensures var fs' := fs[Spot(fs, p).path := Dir];
      && Tree(fs') && Stat(fs', p) == Present(Dir) && Real(fs', p) == Real(before, p) && Fresh(before, fs', Real(before, p))
  {
    hide Resolve, Tree, MadeOnly;
    FreshMeetsNothing(before, fs, p);
    var spot := Spot(fs, p).path;
    var fs' := fs[spot := Dir];
    if p == [] {
      RealOfNothing(fs');
      RealOfNothing(before);
    } else {
      assert Parent(spot) == Real(fs, Parent(p)).path;
      WayToNodeIsStable(fs, fs', [], Parent(p), MAX_LINKS);
      RealStep(fs, p);
      RealStep(fs', p);
    }
    NewDirKeepsTree(fs, spot);
    MadeOneMore(before, fs, if p == [] then [] else Real(before, Parent(p)).path, spot);
  }

  lemma RealOfNothing(fs: Fs)
    ensures Real(fs, []) == Found([], MAX_LINKS)
  {
  }

  lemma MadeOneMore(before: Fs, fs: Fs, dir: Path, spot: Path)
    requires (fs == before || MadeOnly(before, fs, dir)) && dir <= spot && spot !in fs
    ensures spot !in before && MadeOnly(before, fs[spot := Dir], spot)
  {
    assert At(fs, spot) == Absent;
  }

  lemma {:induction false} MissingExtends(fs: Fs, p: Path, n: nat)
    requires Tree(fs) && Proper(p) && n <= |p| && Real(fs, p[..n]).Found? && Real(fs, p[..n]).path !in fs
    ensures Real(fs, p) == Extended(Real(fs, p[..n]), p[n..])
    decreases |p| - n
  {
    hide Resolve, Tree;
    if n == |p| {
      assert p[..n] == p;
    } else {
      var q := p[..n + 1];
      assert Parent(q) == p[..n] && q[|q| - 1] == p[n];
      ChildIsMissing(fs, Real(fs, p[..n]).path, p[n]);
      RealStep(fs, q);
      MissingExtends(fs, p, n + 1);
      assert [p[n]] + p[n + 1..] == p[n..];
    }
  }

  lemma MadeAboveIsMadeOnly(before: Fs, fs: Fs, dir: Path, n: nat)
    requires Tree(before) && Proper(dir) && n <= |dir| && MadeAbove(before, fs, dir[..n])
    ensures Real(before, dir).Lost? ==> fs == before
    ensures Real(before, dir).Found? ==> MadeOnly(before, fs, Real(before, dir).path)
  {
    hide Resolve, Tree;
    if fs != before {
      assert Parent(dir[..n]) == dir[..n - 1];
      MissingExtends(before, dir, n - 1);
    }
  }

  lemma {:induction false} NoWayOn(fs: Fs, p: Path, n: nat)
    requires Tree(fs) && Proper(p) && n <= |p| && Stat(fs, p[..n]) != Present(Dir)
    ensures Stat(fs, p) != Present(Dir)
    decreases |p| - n
  {
    hide Resolve, Tree;
    if n == |p| {
      assert p[..n] == p;
    } else {
      assert Parent(p[..n + 1]) == p[..n] && p[..n + 1][n] == p[n];
      RealStep(fs, p[..n + 1]);
      NoWayOn(fs, p, n + 1);
    }
  }

  /** All directories of the path stand. */
  ghost predicate MadeAll(before: Fs, fs: Fs, dir: Path) {
    && Tree(fs) && Stat(fs, dir) == Present(Dir) && Real(fs, dir) == Real(before, dir)
    && (fs == before || Fresh(before, fs, Real(before, dir)))
  }

  lemma MadeAllIsMadeOnly(before: Fs, fs: Fs, dir: Path)
    requires MadeAll(before, fs, dir)
    ensures Real(before, dir).Found? && MadeOnly(before, fs, Real(before, dir).path)
  {
  }

  /** A file stands there, or can be made. */
  predicate Writable(fs: Fs, w: Way) {
    w.Found? && w.path != [] && At(fs, Parent(w.path)) == Present(Dir) && At(fs, w.path) != Present(Dir)
  }

  class Disk {
    var fs: Fs
    ghost var faulty: bool // some operation has failed for a reason of the disk's own

    constructor (fs: Fs)
      ensures this.fs == fs && !faulty
    {
      this.fs, faulty := fs, false;
    }

    /** Whether an archive entry can be opened. */
    method OpenEntry() returns (ok: bool)
      modifies this`faulty
      ensures faulty <==> old(faulty) || !ok
    {
      ok := *;
      faulty := faulty || !ok;
    }

    /** `os.MkdirAll`: directories are made only towards where the path leads, and only where nothing
        stands. */
    method MkdirAll(dir: Path) returns (ok: bool)
      requires Tree(fs) && Proper(dir)
      modifies this
      ensures Tree(fs) && (old(faulty) ==> faulty)
      ensures Real(old(fs), dir).Lost? ==> !ok && fs == old(fs)
      ensures Real(old(fs), dir).Found? ==> MadeOnly(old(fs), fs, Real(old(fs), dir).path)
      ensures ok ==> Real(fs, dir) == Real(old(fs), dir) && Stat(fs, dir) == Present(Dir)
      ensures !ok ==> Stat(fs, dir) != Present(Dir) && (faulty || Barred(old(fs), dir))
      ensures ok ==> !Barred(old(fs), dir)
      ensures !ok && !faulty ==> fs == old(fs)
    {
      hide Resolve, Tree, Fresh, MadeOnly;
      for i := 0 to |dir| + 1
        invariant old(faulty) ==> faulty
        invariant i <= |dir| ==> MadeAbove(old(fs), fs, dir[..i])
        invariant i > |dir| ==> MadeAll(old(fs), fs, dir)
        invariant forall n :: 0 <= n < i ==> Lstat(old(fs), dir[..n]) == Absent || Stat(old(fs), dir[..n]) == Present(Dir)
      {
        var p := dir[..i];
        assert i < |dir| ==> Parent(dir[..i + 1]) == p;
        assert i == |dir| ==> p == dir;
        var fault: bool := *;
        FreshMeetsNothing(old(fs), fs, p);
        if Stat(fs, p) != Present(Dir) {
          if fault || Lstat(fs, p).Present? {
            faulty := faulty || fault;
            MadeAboveIsMadeOnly(old(fs), fs, dir, i);
            NoWayOn(fs, dir, i);
            return false;
          }
          MakeOne(old(fs), fs, p);
          fs := fs[Spot(fs, p).path := Dir];
        }
      }
      MadeAllIsMadeOnly(old(fs), fs, dir);
      return true;
    }

    /** `os.RemoveAll` removes a symlink at the path itself, and follows those above. */
    method RemoveAll(dest: Path)
      requires Tree(fs) && dest != []
      modifies this
      ensures Tree(fs) && (old(faulty) ==> faulty)
      ensures Spot(old(fs), dest).Lost? ==> fs == old(fs)
      ensures Spot(old(fs), dest).Found? ==> Trimmed(old(fs), fs, Spot(old(fs), dest).path)
      ensures Spot(old(fs), dest).Found? && !faulty ==> fs == Without(old(fs), Spot(old(fs), dest).path)
    {
      var fault: bool, left: Fs := *, *;
      faulty := faulty || fault;
      if Spot(fs, dest).Found? {
        var spot := Spot(fs, dest).path;
        WithoutIsTree(fs, spot);
        if !fault {
          fs := Without(fs, spot);
        } else if Trimmed(fs, left, spot) {
          fs := left;
        }
      }
    }

    /** Open for writing, truncating, following a symlink above the file but none in its place; copy
        at most `limit` bytes. */
    method WriteFile(dest: Path, data: Bytes, limit: nat) returns (n: nat, ok: bool)
      requires Tree(fs) && dest != []
      modifies this
      ensures Tree(fs) && n <= limit && n <= |data| && (old(faulty) ==> faulty)
      ensures Stat(old(fs), Parent(dest)) != Present(Dir) ==> !ok && fs == old(fs)
      ensures Stat(old(fs), Parent(dest)) == Present(Dir) ==>
                var spot := Spot(old(fs), dest).path;
                && (forall p :: p != spot ==> At(fs, p) == At(old(fs), p))
                && (ok ==> At(fs, spot) == Present(File(data[..n])) && (n == limit || n == |data|))
      ensures !ok ==>
                || faulty || Stat(old(fs), Parent(dest)) != Present(Dir)
                || (Lstat(old(fs), dest).Present? && !Lstat(old(fs), dest).node.File?)
    {
      var fault: bool, copied: nat := *, *;
      n := if limit < |data| then limit else |data|;
      if fault || Stat(fs, Parent(dest)) != Present(Dir) || (Lstat(fs, dest).Present? && !Lstat(fs, dest).node.File?) {
        faulty := faulty || fault;
        return 0, false;
      }
      ok := *;
      faulty := faulty || !ok;
      if !ok && copied < n {
        n := copied;
      }
      var spot := Spot(fs, dest).path;
      assert Parent(spot) == Real(fs, Parent(dest)).path;
      fs := fs[spot := File(data[..n])];
    }

    /** `io.ReadAll` on an entry: what could be read. */
    method ReadEntry(data: Bytes) returns (read: Bytes)
      modifies this`faulty
      ensures read <= data && (old(faulty) ==> faulty) && (read != data ==> faulty)
    {
      var k :| 0 <= k <= |data|;
      read := data[..k];
      faulty := faulty || k < |data|;
    }

    /** `os.WriteFile` truncates or makes the file that the path leads to, through any symlink. The result
        is the number of bytes written, if it could be opened. */
    method WriteThrough(dest: Path, data: Bytes) returns (wrote: Option<nat>)
      requires Tree(fs)
      modifies this
      ensures Tree(fs) && (old(faulty) ==> faulty)
      ensures wrote.None? ==> fs == old(fs) && (faulty || !Writable(old(fs), Real(old(fs), dest)))
      ensures wrote.Some? ==> Writable(old(fs), Real(old(fs), dest)) && wrote.value <= |data| && (wrote.value == |data| || faulty)
      ensures wrote.Some? ==> fs == old(fs)[Real(old(fs), dest).path := File(data[..wrote.value])]
    {
      var fault: bool, copied: nat := *, *;
      var w := Real(fs, dest);
      if fault || !Writable(fs, w) {
        faulty := faulty || fault;
        return None;
      }
      var n := if copied < |data| then copied else |data|;
      faulty := faulty || n < |data|;
      fs := fs[w.path := File(data[..n])];
      return Some(n);
    }
  }
}
