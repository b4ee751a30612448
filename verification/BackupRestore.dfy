/** Archiving a site's files and putting them back (internal/engine/backup.go). */
module BackupRestore {
  import opened FileTree

  const CAP: nat := 21474836480 // 20 GiB

  /** A zip entry: its name split at the slashes, and what it unpacks to. */
  datatype Entry = Entry(name: seq<string>, data: Bytes)

  /** The two directories of a site. */
  datatype Roots = Roots(site: Path, data: Path)

  // ---- Names ----

  /** `filepath.Clean` of an absolute path. */
  function Clean(raw: seq<string>): Path {
    if raw == [] then []
    else
      var above, c := Clean(raw[..|raw| - 1]), raw[|raw| - 1];
      if c == "" || c == "." then above
      else if c == ".." then if above == [] then [] else Parent(above)
      else above + [c]
  }

  lemma {:induction false} CleanIsProper(raw: seq<string>)
    ensures Proper(Clean(raw))
  {
    if raw != [] {
      CleanIsProper(raw[..|raw| - 1]);
    }
  }

  lemma {:induction false} CleanKeeps(p: Path)
    requires Proper(p)
    ensures Clean(p) == p
  {
    if p != [] {
      CleanKeeps(p[..|p| - 1]);
      assert ProperName(p[|p| - 1]) && p == p[..|p| - 1] + [p[|p| - 1]];
    }
  }

  /** `.` and empty components go, and `..` takes the component before it, up to the top. */
  lemma CleanSteps(raw: seq<string>, c: string)
    ensures Clean(raw + ["."]) == Clean(raw + [""]) == Clean(raw)
    ensures ProperName(c) ==> Clean(raw + [c]) == Clean(raw) + [c] && Clean(raw + [c] + [".."]) == Clean(raw)
    ensures Clean([".."]) == []
  {
    assert forall x :: (raw + [x])[..|raw|] == raw;
    assert (raw + [c] + [".."])[..|raw| + 1] == raw + [c];
    assert [".."][..0] == [];
  }

  /** Where an entry belongs: `rel` below one of the roots. */
  datatype Place = Nowhere | Somewhere(root: Path, rel: Path)

  /** Where an entry below this prefix is restored; nowhere when its name would leave the root. */
  function Below(prefix: string, root: Path, name: seq<string>): Place {
    if |name| < 2 || name[0] != prefix || name[1..] == [""] then Nowhere
    else
      var dest := Clean(root + name[1..]);
      if root < dest then Somewhere(root, dest[|root|..]) else Nowhere
  }

  function Target(e: Entry, roots: Roots): Place {
    var site := Below("files", roots.site, e.name);
    if site.Somewhere? then site else Below("data", roots.data, e.name)
  }

  /** An entry whose name climbs out of its root belongs nowhere. */
  lemma ClimbingNamesGoNowhere(roots: Roots, c: string, data: Bytes)
    requires Apart(roots) && Proper(roots.site) && Proper(roots.data) && ProperName(c)
    ensures Target(Entry(["files", "..", c], data), roots).Nowhere?
    ensures Target(Entry(["data", "..", c], data), roots).Nowhere?
  {
    hide Clean;
    ClimbsOut(roots.site, c);
    ClimbsOut(roots.data, c);
    assert ["files", "..", c][1..] == ["..", c] == ["data", "..", c][1..];
  }

  lemma ClimbsOut(root: Path, c: string)
    requires Proper(root) && ProperName(c)
    ensures |Clean(root + ["..", c])| <= |root| || root == []
    ensures root == [] ==> Clean(root + ["..", c]) == [c]
  {
    CleanKeeps(root);
    var up := root + [".."];
    assert root + ["..", c] == up + [c] && (up + [c])[..|up|] == up && up[..|root|] == root;
  }

  lemma TargetIsBelow(e: Entry, roots: Roots)
    requires Target(e, roots).Somewhere?
    ensures var t := Target(e, roots); t.root in {roots.site, roots.data} && t.rel != [] && Proper(t.root + t.rel) && Proper(t.root)
  {
    var t := Target(e, roots);
    var dest := Clean(t.root + e.name[1..]);
    CleanIsProper(t.root + e.name[1..]);
    assert dest == t.root + dest[|t.root|..];
    assert forall c :: c in t.root ==> c in t.root + t.rel;
  }

  /** Neither root lies within the other. */
  predicate Apart(roots: Roots) { !(roots.site <= roots.data) && !(roots.data <= roots.site) }

  function Size(es: seq<Entry>, roots: Roots): nat {
    if es == [] then 0
    else
      var e := es[|es| - 1];
      Size(es[..|es| - 1], roots) + if Target(e, roots).Somewhere? then |e.data| else 0
  }

  /** The compose environment's entry, and where it goes. */
  predicate IsEnv(e: Entry) { e.name == ["compose_env"] }

  function EnvPath(roots: Roots): Path { roots.data + ["compose", ".env"] }

  function EnvSize(es: seq<Entry>): nat {
    if es == [] then 0 else EnvSize(es[..|es| - 1]) + if IsEnv(es[|es| - 1]) then |es[|es| - 1].data| else 0
  }

  lemma SizeStep(es: seq<Entry>, i: nat, roots: Roots)
    requires i < |es|
    ensures EnvSize(es[..i + 1]) == EnvSize(es[..i]) + if IsEnv(es[i]) then |es[i].data| else 0
    ensures Size(es[..i + 1], roots) == Size(es[..i], roots) + if Target(es[i], roots).Somewhere? then |es[i].data| else 0
  {
    assert es[..i + 1][..i] == es[..i];
  }

  lemma {:induction false} SizeGrows(es: seq<Entry>, n: nat, roots: Roots)
    requires n <= |es|
    ensures Size(es[..n], roots) <= Size(es, roots) && EnvSize(es[..n]) <= EnvSize(es)
  {
    if n == |es| {
      assert es[..n] == es;
    } else {
      SizeGrows(es[..|es| - 1], n, roots);
      assert es[..|es| - 1][..n] == es[..n];
    }
  }

  /** Nothing escapes the cap if and only if no compose environment in the archive has any bytes. */
  lemma {:induction false} EnvSizeIsZeroIff(es: seq<Entry>)
    ensures EnvSize(es) == 0 <==> forall i :: 0 <= i < |es| && IsEnv(es[i]) ==> es[i].data == []
  {
    if es != [] {
      var n := |es| - 1;
      EnvSizeIsZeroIff(es[..n]);
      assert forall i :: 0 <= i < n ==> es[..n][i] == es[i];
    }
  }

  // ---- Restoring one entry ----

  /** `rel` below what the root leads to. */
  function Landing(fs: Fs, root: Path, rel: Path): Way { Extended(Real(fs, root), rel) }

  /** Only the place that the entry lands at has changed. */
  ghost predicate Put(fs: Fs, fs': Fs, w: Way) {
    if w.Lost? then fs' == fs else Touched(fs, fs', w.path)
  }

  /** A symlinked parent; something on the way that leads to no directory; or in the file's place
      something that the way to the root itself leads through. */
  ghost predicate Hindered(fs: Fs, root: Path, dest: Path)
    requires dest != []
  {
    SymlinkBetween(fs, root, dest) || Barred(fs, Parent(dest)) || Undermined(fs, dest)
  }

  predicate Irregular(fs: Fs, dest: Path) { Lstat(fs, dest).Present? && !Lstat(fs, dest).node.File? }

  ghost predicate Undermined(fs: Fs, dest: Path)
    requires dest != []
  {
    Irregular(fs, dest) && Stat(Without(fs, Spot(fs, dest).path), Parent(dest)) != Present(Dir)
  }

  method SymlinkedParentWithin(disk: Disk, root: Path, dest: Path) returns (found: bool)
    requires root < dest
    ensures found <==> SymlinkBetween(disk.fs, root, dest)
  {
    hide Spot;
    var cur := Parent(dest);
    while |cur| > |root|
      invariant |root| <= |cur| < |dest| && cur == dest[..|cur|]
      invariant forall n :: |cur| < n < |dest| ==> !IsLink(Lstat(disk.fs, dest[..n]))
    {
      if IsLink(Lstat(disk.fs, cur)) {
        return true;
      }
      cur := Parent(cur);
    }
    return false;
  }

  /** With no symlink in between, the way below the root is the way to the root and then by name. */
  lemma {:induction false} WayBelow(fs: Fs, root: Path, rel: Path, n: nat)
    requires Proper(root + rel) && n <= |rel|
    requires forall m :: |root| < m <= |root| + n ==> !IsLink(Lstat(fs, (root + rel)[..m]))
    ensures Real(fs, root + rel[..n]) == Landing(fs, root, rel[..n])
  {
    hide Resolve;
    if n == 0 {
      assert root + rel[..0] == root && (Real(fs, root).Found? ==> Real(fs, root).path + rel[..0] == Real(fs, root).path);
    } else {
      WayBelow(fs, root, rel, n - 1);
      var p := root + rel[..n];
      assert p == (root + rel)[..|root| + n];
      assert Parent(p) == root + rel[..n - 1] && p[|p| - 1] == rel[n - 1] && rel[n - 1] in root + rel;
      RealStep(fs, p);
      assert rel[..n - 1] + [rel[n - 1]] == rel[..n];
    }
  }

  /** So has the way to a node that is no symlink. */
  lemma {:induction false} WayToNodeBelow(fs: Fs, root: Path, rel: Path, n: nat)
    requires Tree(fs) && Proper(root + rel) && n <= |rel|
    requires AtEnd(fs, Landing(fs, root, rel)).Present? && !IsLink(AtEnd(fs, Landing(fs, root, rel)))
    ensures Real(fs, root + rel[..n]) == Landing(fs, root, rel[..n])
  {
    hide Resolve, Tree;
    if n == 0 {
      assert root + rel[..0] == root && Real(fs, root).path + rel[..0] == Real(fs, root).path;
    } else {
      WayToNodeBelow(fs, root, rel, n - 1);
      var p, top := root + rel[..n], Real(fs, root).path;
      assert Parent(p) == root + rel[..n - 1] && p[|p| - 1] == rel[n - 1] && rel[n - 1] in root + rel;
      assert rel[..n - 1] + [rel[n - 1]] == rel[..n];
      assert (top + rel)[..|top| + n] == top + rel[..n] == top + rel[..n - 1] + [rel[n - 1]];
      if n < |rel| {
        AboveIsDir(fs, top + rel, |top| + n);
      } else {
        assert rel[..n] == rel;
      }
      RealStep(fs, p);
    }
  }

  lemma WayToParent(fs: Fs, root: Path, rel: Path)
    requires rel != [] && Proper(root + rel) && !SymlinkBetween(fs, root, root + rel)
    ensures Parent(root + rel) == root + Parent(rel)
    ensures Real(fs, Parent(root + rel)) == Landing(fs, root, Parent(rel))
    ensures Spot(fs, root + rel) == Landing(fs, root, rel)
  {
    hide Resolve;
    WayBelow(fs, root, rel, |rel| - 1);
    assert Parent(root + rel) == root + rel[..|rel| - 1];
    assert rel == Parent(rel) + [rel[|rel| - 1]];
  }

  /** The removal has not moved the way to the directory. */
  lemma RemovalKeepsWay(fs: Fs, left: Fs, spot: Path, dir: Path)
    requires Tree(fs) && Trimmed(fs, left, spot) && Stat(left, dir) == Present(Dir)
    ensures Real(fs, dir) == Real(left, dir)
  {
    hide Resolve;
    WayToNodeIsStable(left, fs, [], dir, MAX_LINKS);
  }

  /** Success puts the entry's bytes, as many as the limit allows, where its root leads. Whatever
      happens, nothing outside the subtree there changes but for missing directories above it, and a
      symlinked parent stops the entry before anything is touched. */
  method RestoreZipEntry(disk: Disk, e: Entry, root: Path, rel: Path, limit: nat) returns (n: nat, ok: bool)
    requires Tree(disk.fs) && rel != [] && Proper(root + rel)
    modifies disk
    ensures Tree(disk.fs) && (old(disk.faulty) ==> disk.faulty)
    ensures Put(old(disk.fs), disk.fs, Landing(old(disk.fs), root, rel))
    ensures n <= limit && n <= |e.data|
    ensures ok ==> (n == limit || n == |e.data|)
    ensures ok ==> AtEnd(disk.fs, Landing(old(disk.fs), root, rel)) == Present(File(e.data[..n]))
    ensures SymlinkBetween(old(disk.fs), root, root + rel) ==> !ok && disk.fs == old(disk.fs)
    ensures !ok ==> disk.faulty || Hindered(old(disk.fs), root, root + rel)
  {
    hide Resolve, Tree, Barred, Proper, SymlinkBetween;
    var dest := root + rel;
    var linked := SymlinkedParentWithin(disk, root, dest);
    Untouched(disk.fs, Landing(disk.fs, root, rel));
    if linked {
      return 0, false;
    }
    WayToParent(disk.fs, root, rel);
    ProperParent(dest);
    var readable := disk.OpenEntry();
    if !readable {
      return 0, false;
    }
    var made := disk.MkdirAll(Parent(dest));
    if !made {
      return 0, false;
    }
    ghost var was := disk.fs;
    assert Spot(was, dest) == Spot(old(disk.fs), dest);
    if Irregular(disk.fs, dest) {
      IrregularStoodBefore(old(disk.fs), was, dest);
      disk.RemoveAll(dest);
      if Stat(disk.fs, Parent(dest)) == Present(Dir) {
        RemovalKeepsWay(was, disk.fs, Spot(was, dest).path, Parent(dest));
      }
    }
    n, ok := disk.WriteFile(dest, e.data, limit);
  }

  lemma Untouched(fs: Fs, w: Way)
    ensures Put(fs, fs, w)
  {
  }

  lemma ProperParent(p: Path)
    requires p != [] && Proper(p)
    ensures Proper(Parent(p))
  {
  }

  /** Directories are made only on the way to something missing. */
  lemma IrregularStoodBefore(fs: Fs, fs': Fs, dest: Path)
    requires dest != [] && Tree(fs) && Real(fs, Parent(dest)).Found? && MadeOnly(fs, fs', Real(fs, Parent(dest)).path)
    requires Spot(fs', dest) == Spot(fs, dest) && Lstat(fs', dest).Present?
    ensures fs' == fs
  {
    var spot := Spot(fs, dest).path;
    assert Parent(spot) == Real(fs, Parent(dest)).path;
    NothingMissing(fs, fs', Parent(spot));
  }

  // ---- Restoring the compose environment ----

  ghost predicate Kept(fs: Fs, fs': Fs, spot: Path, p: Path) {
    At(fs', p) == At(fs, p) || (p < spot && At(fs, p) == Absent && At(fs', p) == Present(Dir))
  }

  /** The first bytes of `data` have been written where the way leads, or nothing; no other node has
      changed, but directories missing above it may have been made. */
  ghost predicate Poured(fs: Fs, fs': Fs, w: Way, data: Bytes, wrote: Option<nat>) {
    match wrote
    case None => if w.Lost? then fs' == fs else forall p :: Kept(fs, fs', w.path, p)
    case Some(n) =>
      && w.Found? && n <= |data| && At(fs, w.path) != Present(Dir) && !IsLink(At(fs, w.path))
      && At(fs', w.path) == Present(File(data[..n])) && forall p :: p != w.path ==> Kept(fs, fs', w.path, p)
  }

  /** A file stands where the path leads or can be made there, missing directories of the path included. */
  ghost predicate Pourable(fs: Fs, dest: Path)
    requires dest != []
  {
    var w := Real(fs, dest);
    && w.Found? && w.path != [] && At(fs, w.path) != Present(Dir)
    && (At(fs, Parent(w.path)) == Present(Dir) || (!IsLink(Lstat(fs, dest)) && !Barred(fs, Parent(dest))))
  }

  /** Making the directories of the path has not moved the way, and only where they stand can the file
      be written. */
  lemma WayAfterMkdir(fs: Fs, fs': Fs, dest: Path, made: bool)
    requires dest != [] && Proper(dest) && Tree(fs) && Tree(fs')
    requires Real(fs, Parent(dest)).Lost? ==> fs' == fs
    requires Real(fs, Parent(dest)).Found? ==> MadeOnly(fs, fs', Real(fs, Parent(dest)).path)
    requires made ==> Real(fs', Parent(dest)) == Real(fs, Parent(dest))
    requires made <==> Stat(fs', Parent(dest)) == Present(Dir)
    ensures !made ==> !Writable(fs', Real(fs', dest))
    ensures fs' != fs ==>
      var w := Real(fs, dest);
      && w.Found? && w.path != [] && w.path !in fs && Parent(w.path) !in fs && !IsLink(Lstat(fs, dest))
      && MadeOnly(fs, fs', Parent(w.path)) && (made ==> Real(fs', dest) == w && w.path !in fs')
  {
    hide Resolve, Tree;
    var dir, c := Parent(dest), dest[|dest| - 1];
    RealStep(fs, dest);
    RealStep(fs', dest);
    if fs' != fs {
      var top := Real(fs, dir).path;
      if top in fs {
        NothingMissing(fs, fs', top);
      }
      ChildIsMissing(fs, top, c);
      assert Spot(fs, dest).path == top + [c] && Parent(top + [c]) == top;
      assert At(fs', top + [c]) == At(fs, top + [c]);
    }
  }

  lemma RealIsNoLink(fs: Fs, p: Path)
    requires Tree(fs)
    ensures Real(fs, p).Found? ==> !IsLink(At(fs, Real(fs, p).path))
  {
    ResolvedIsDirect(fs, [], p, MAX_LINKS);
    if Real(fs, p).Found? {
      var q := Real(fs, p).path;
      assert q[..|q|] == q;
    }
  }

  /** What `os.MkdirAll` has made of `fs` is `ready`, and what was then written of `data` gives `fs'`. */
  lemma PouredThrough(
    fs: Fs, ready: Fs, fs': Fs, dest: Path, data: Bytes, read: Bytes, made: bool, wrote: Option<nat>, faulty: bool)
    requires dest != [] && Proper(dest) && Tree(fs) && Tree(ready)
    requires Real(fs, Parent(dest)).Lost? ==> ready == fs
    requires Real(fs, Parent(dest)).Found? ==> MadeOnly(fs, ready, Real(fs, Parent(dest)).path)
    requires made ==> Real(ready, Parent(dest)) == Real(fs, Parent(dest)) && !Barred(fs, Parent(dest))
    requires made <==> Stat(ready, Parent(dest)) == Present(Dir)
    requires !made && !faulty ==> ready == fs && Barred(fs, Parent(dest))
    requires read <= data && (read != data ==> faulty)
    requires wrote.None? ==> fs' == ready && (faulty || !Writable(ready, Real(ready, dest)))
    requires wrote.Some? ==> Writable(ready, Real(ready, dest)) && wrote.value <= |read| && (wrote.value == |read| || faulty)
    requires wrote.Some? ==> fs' == ready[Real(ready, dest).path := File(read[..wrote.value])]
    ensures Poured(fs, fs', Real(fs, dest), data, wrote)
    ensures !faulty ==> wrote == if Pourable(fs, dest) then Some(|data|) else None
    ensures !faulty && wrote.None? ==> fs' == fs
  {
    hide Resolve, Tree, Barred;
    WayAfterMkdir(fs, ready, dest, made);
    RealIsNoLink(fs, dest);
    RealStep(fs, dest);
    if wrote.Some? {
      assert read[..wrote.value] == data[..wrote.value];
    }
  }

  /** Nothing is checked and no error is reported: the entry is written through any symlink. */
  method RestoreEnv(disk: Disk, e: Entry, roots: Roots) returns (readable: bool, wrote: Option<nat>)
    requires Tree(disk.fs) && Proper(roots.data)
    modifies disk
    ensures Tree(disk.fs) && (old(disk.faulty) ==> disk.faulty)
    ensures !readable ==> disk.fs == old(disk.fs) && wrote.None? && disk.faulty
    ensures Poured(old(disk.fs), disk.fs, Real(old(disk.fs), EnvPath(roots)), e.data, wrote)
    ensures !disk.faulty ==> wrote == if Pourable(old(disk.fs), EnvPath(roots)) then Some(|e.data|) else None
    ensures !disk.faulty && wrote.None? ==> disk.fs == old(disk.fs)
  {
    hide Resolve, Tree, Barred, Poured, Pourable, Writable, MadeOnly, Stat;
    var compDir := roots.data + ["compose"];
    var envPath := compDir + [".env"];
    assert envPath == EnvPath(roots) && Parent(envPath) == compDir;
    readable := disk.OpenEntry();
    if !readable {
      NothingPoured(disk.fs, Real(disk.fs, envPath), e.data);
      return false, None;
    }
    ghost var before := disk.fs;
    var data := disk.ReadEntry(e.data);
    var made := disk.MkdirAll(compDir);
    ghost var ready := disk.fs;
    wrote := disk.WriteThrough(envPath, data);
    PouredThrough(before, ready, disk.fs, envPath, e.data, data, made, wrote, disk.faulty);
    if wrote.Some? {
      assert wrote.value <= |e.data|;
    }
  }

  lemma NothingPoured(fs: Fs, w: Way, data: Bytes)
    ensures Poured(fs, fs, w, data, None)
  {
  }

  // ---- Restoring an archive ----

  datatype Outcome =
    | Refused   // before the site was touched
    | TooLarge  // the archive holds more than the cap
    | BadEnv    // a later metadata entry carries an invalid environment
    | Crashed   // the metadata or the compose environment could not be opened
    | Partial   // finished with errors
    | Restored

  predicate HasContent(es: seq<Entry>) {
    exists i :: 0 <= i < |es| && |es[i].name| > 1 && es[i].name[0] in {"files", "data", "databases"}
  }

  /** Where the entry is put on this disk. */
  function Lands(fs: Fs, e: Entry, roots: Roots): Way {
    var t := Target(e, roots);
    if t.Somewhere? then Landing(fs, t.root, t.rel) else if IsEnv(e) then Real(fs, EnvPath(roots)) else Lost
  }

  /** A file of the site is put in its place with all its bytes. */
  predicate Stored(fs: Fs, fs': Fs, e: Entry, roots: Roots) {
    Target(e, roots).Somewhere? ==> AtEnd(fs', Lands(fs, e, roots)) == Present(File(e.data))
  }

  ghost predicate HinderedEntry(fs: Fs, e: Entry, roots: Roots) {
    var t := Target(e, roots);
    t.Somewhere? && t.rel != [] && Hindered(fs, t.root, t.root + t.rel)
  }

  /** An entry changes only the place it lands at. */
  ghost predicate Step(fs: Fs, fs': Fs, e: Entry, roots: Roots) {
    && Put(fs, fs', Lands(fs, e, roots))
    && (IsEnv(e) ==> exists wrote: Option<nat> :: Poured(fs, fs', Lands(fs, e, roots), e.data, wrote))
  }

  /** The disk before and after each entry. */
  ghost predicate Trace(states: seq<Fs>, es: seq<Entry>, roots: Roots) {
    && 0 < |states| <= |es| + 1
    && (forall k :: 0 <= k < |states| ==> Tree(states[k]))
    && (forall k :: 0 <= k < |states| - 1 ==> Step(states[k], states[k + 1], es[k], roots))
  }

  /** Of the compose environment everything is written that the disk has a place for. */
  ghost predicate PouredUpTo(states: seq<Fs>, es: seq<Entry>, roots: Roots, n: nat)
    requires n < |states| && n <= |es|
  {
    forall k :: 0 <= k < n && IsEnv(es[k]) ==> PouredWhole(states[k], states[k + 1], es[k], roots)
  }

  ghost predicate PouredWhole(fs: Fs, fs': Fs, e: Entry, roots: Roots) {
    if Pourable(fs, EnvPath(roots)) then Poured(fs, fs', Real(fs, EnvPath(roots)), e.data, Some(|e.data|)) else fs' == fs
  }

  ghost predicate AllPourable(states: seq<Fs>, es: seq<Entry>, roots: Roots, n: nat)
    requires n < |states| && n <= |es|
  {
    forall k :: 0 <= k < n && IsEnv(es[k]) ==> Pourable(states[k], EnvPath(roots))
  }

  /** Every file so far was put where it lands, with all its bytes. */
  ghost predicate StoredUpTo(states: seq<Fs>, es: seq<Entry>, roots: Roots, n: nat)
    requires n < |states| && n <= |es|
  {
    forall k :: 0 <= k < n ==> Stored(states[k], states[k + 1], es[k], roots)
  }

  /** The whole archive was restored. */
  ghost predicate AllStored(states: seq<Fs>, es: seq<Entry>, roots: Roots) {
    Trace(states, es, roots) && |states| == |es| + 1 && StoredUpTo(states, es, roots, |es|)
  }

  lemma TraceGrows(states: seq<Fs>, fs: Fs, es: seq<Entry>, roots: Roots)
    requires Trace(states, es, roots) && |states| <= |es| && Tree(fs)
    requires Step(states[|states| - 1], fs, es[|states| - 1], roots)
    ensures Trace(states + [fs], es, roots)
    ensures StoredUpTo(states, es, roots, |states| - 1) && Stored(states[|states| - 1], fs, es[|states| - 1], roots) ==>
              StoredUpTo(states + [fs], es, roots, |states|)
    ensures PouredUpTo(states, es, roots, |states| - 1) && PouredIfEnv(states[|states| - 1], fs, es[|states| - 1], roots) ==>
              PouredUpTo(states + [fs], es, roots, |states|)
    ensures AllPourable(states + [fs], es, roots, |states|) <==>
      AllPourable(states, es, roots, |states| - 1) && (IsEnv(es[|states| - 1]) ==> Pourable(states[|states| - 1], EnvPath(roots)))
  {
    hide Tree, Step, Stored, PouredWhole, Pourable;
    assert forall k :: 0 <= k < |states| ==> (states + [fs])[k] == states[k];
  }

  ghost predicate PouredIfEnv(fs: Fs, fs': Fs, e: Entry, roots: Roots) { IsEnv(e) ==> PouredWhole(fs, fs', e, roots) }

  lemma EndsStored(states: seq<Fs>, es: seq<Entry>, roots: Roots)
    requires Trace(states, es, roots) && |states| == |es| + 1 && StoredUpTo(states, es, roots, |es|)
    ensures AllStored(states, es, roots)
  {
  }

  lemma TraceBegins(fs: Fs, es: seq<Entry>, roots: Roots)
    requires Tree(fs)
    ensures Trace([fs], es, roots) && StoredUpTo([fs], es, roots, 0) && Size(es[..0], roots) == EnvSize(es[..0]) == 0
    ensures PouredUpTo([fs], es, roots, 0)
  {
  }

  /** The checks made before the site is stopped. */
  method IsFit(disk: Disk, es: seq<Entry>, parses: Bytes -> bool, envOk: Bytes -> bool) returns (fit: bool)
    modifies disk`faulty
    ensures fit ==> FitToRestore(es, parses, envOk)
    ensures !fit ==> disk.faulty || !FitToRestore(es, parses, envOk)
    ensures old(disk.faulty) ==> disk.faulty
  {
    if !HasContent(es) {
      return false;
    }
    for i := 0 to |es|
      invariant forall k :: 0 <= k < i ==> es[k].name != ["metadata.json"]
    {
      if es[i].name == ["metadata.json"] {
        assert FirstMetadata(es, i);
        var readable := disk.OpenEntry();
        return readable && !(parses(es[i].data) && !envOk(es[i].data));
      }
    }
    return true;
  }

  ghost predicate FitToRestore(es: seq<Entry>, parses: Bytes -> bool, envOk: Bytes -> bool) {
    HasContent(es) && forall i :: FirstMetadata(es, i) && parses(es[i].data) ==> envOk(es[i].data)
  }

  /** An archive is refused unless it has something below one of three directories, and where its first
      metadata decode to an environment that is not allowed. */
  lemma FitToRestoreIff(es: seq<Entry>, parses: Bytes -> bool, envOk: Bytes -> bool)
    ensures FitToRestore(es, parses, envOk) <==>
      && (exists i :: 0 <= i < |es| && |es[i].name| >= 2 && es[i].name[0] in {"files", "data", "databases"})
      && forall i :: 0 <= i < |es| && es[i].name == ["metadata.json"] && (forall k :: 0 <= k < i ==> es[k].name != ["metadata.json"]) ==>
          parses(es[i].data) ==> envOk(es[i].data)
  {
    if !FitToRestore(es, parses, envOk) && HasContent(es) {
      var i :| FirstMetadata(es, i) && parses(es[i].data) && !envOk(es[i].data);
    }
  }

  predicate FirstMetadata(es: seq<Entry>, i: int) {
    && 0 <= i < |es| && es[i].name == ["metadata.json"]
    && forall k :: 0 <= k < i ==> es[k].name != ["metadata.json"]
  }

  lemma NoTarget(fs: Fs, e: Entry, roots: Roots)
    requires Target(e, roots).Nowhere? && !IsEnv(e)
    ensures Step(fs, fs, e, roots) && Stored(fs, fs, e, roots) && PouredIfEnv(fs, fs, e, roots)
  {
  }

  lemma EnvHasNoTarget(e: Entry, roots: Roots)
    requires IsEnv(e)
    ensures Target(e, roots).Nowhere?
  {
  }

  lemma EnvStep(fs: Fs, fs': Fs, e: Entry, roots: Roots, wrote: Option<nat>, faulty: bool)
    requires IsEnv(e) && Poured(fs, fs', Real(fs, EnvPath(roots)), e.data, wrote)
    requires !faulty ==> wrote == if Pourable(fs, EnvPath(roots)) then Some(|e.data|) else None
    requires !faulty && wrote.None? ==> fs' == fs
    ensures Step(fs, fs', e, roots) && Stored(fs, fs', e, roots) && (!faulty ==> PouredIfEnv(fs, fs', e, roots))
    ensures wrote.Some? ==> wrote.value <= |e.data|
  {
    hide Target, Resolve, Pourable;
    EnvHasNoTarget(e, roots);
    PouredIsPut(fs, fs', Lands(fs, e, roots), e.data, wrote);
  }

  lemma PouredIsPut(fs: Fs, fs': Fs, w: Way, data: Bytes, wrote: Option<nat>)
    requires Poured(fs, fs', w, data, wrote)
    ensures Put(fs, fs', w)
  {
    if w.Found? {
      forall p | !(w.path <= p)
        ensures At(fs', p) == At(fs, p) || (p < w.path && At(fs, p) == Absent && At(fs', p) == Present(Dir))
      {
        assert p != w.path;
        assert Kept(fs, fs', w.path, p);
      }
    } else {
      assert wrote.None?;
    }
  }

  /** `parses` and `envOk` are what decoding a metadata entry and checking its environment report.
      `written` is what the code counts, `poured` the bytes it writes without counting them; the ghost
      result lists the states of the disk. */
  method RestoreBackup(disk: Disk, es: seq<Entry>, roots: Roots, parses: Bytes -> bool, envOk: Bytes -> bool)
    returns (outcome: Outcome, written: nat, poured: nat, ghost states: seq<Fs>)
    requires Tree(disk.fs) && Proper(roots.data)
    modifies disk
    ensures Trace(states, es, roots) && states[0] == old(disk.fs) && states[|states| - 1] == disk.fs
    ensures outcome.Refused? ==> disk.fs == old(disk.fs) && written == poured == 0
    ensures written <= CAP + 1 && poured <= EnvSize(es)
    ensures outcome.Refused? ==> disk.faulty || !FitToRestore(es, parses, envOk)
    ensures !outcome.Refused? ==> FitToRestore(es, parses, envOk)
    ensures outcome.BadEnv? ==> exists i :: 0 <= i < |es| && es[i].name == ["metadata.json"] && !envOk(es[i].data)
    ensures outcome.Crashed? ==> disk.faulty
    ensures outcome.TooLarge? ==> Size(es, roots) > CAP
    ensures outcome.Partial? ==> |states| == |es| + 1
    ensures outcome.Partial? ==> disk.faulty || exists i :: 0 <= i < |es| && HinderedEntry(states[i], es[i], roots)
    ensures outcome.Restored? ==> written == Size(es, roots) <= CAP
    ensures outcome.Restored? ==> AllStored(states, es, roots)
    ensures !disk.faulty ==> PouredUpTo(states, es, roots, |states| - 1)
    ensures |states| == |es| + 1 && !disk.faulty && AllPourable(states, es, roots, |es|) ==> poured == EnvSize(es)
  {
    hide *;
    states := [disk.fs];
    TraceBegins(disk.fs, es, roots);
    written, poured := 0, 0;
    var fit := IsFit(disk, es, parses, envOk);
    if !fit {
      assert |es| == 0 ==> es[..0] == es;
      return Refused, 0, 0, states;
    }
    var errors := 0;
    for i := 0 to |es|
      invariant |states| == i + 1 && states[0] == old(disk.fs) && states[i] == disk.fs
      invariant Trace(states, es, roots) && Tree(disk.fs)
      invariant written <= CAP && written <= Size(es[..i], roots)
      invariant errors == 0 ==> written == Size(es[..i], roots)
      invariant errors > 0 ==> disk.faulty || exists k :: 0 <= k < i && HinderedEntry(states[k], es[k], roots)
      invariant errors == 0 ==> StoredUpTo(states, es, roots, i)
      invariant poured <= EnvSize(es[..i])
      invariant !disk.faulty ==> PouredUpTo(states, es, roots, i)
      invariant !disk.faulty && AllPourable(states, es, roots, i) ==> poured == EnvSize(es[..i])
    {
      var e := es[i];
      var t := Target(e, roots);
      SizeStep(es, i, roots);
      SizeGrows(es, i, roots);
      SizeGrows(es, i + 1, roots);
      assert i + 1 == |es| ==> es[..i + 1] == es;
      ghost var prev := disk.fs;
      if t.Somewhere? {
        TargetIsBelow(e, roots);
        var limit := CAP - written + 1;
        var n, ok := RestoreZipEntry(disk, e, t.root, t.rel, limit);
        LandsThere(prev, disk.fs, e, roots, n, ok);
        TraceGrows(states, disk.fs, es, roots);
        states := states + [disk.fs];
        written := written + n;
        if written > CAP {
          return TooLarge, written, poured, states;
        }
        if !ok {
          errors := errors + 1;
          assert disk.faulty || HinderedEntry(states[i], es[i], roots);
        }
      } else if IsEnv(e) {
        var readable, wrote := RestoreEnv(disk, e, roots);
        if !readable {
          return Crashed, written, poured, states;
        }
        EnvStep(prev, disk.fs, e, roots, wrote, disk.faulty);
        TraceGrows(states, disk.fs, es, roots);
        states := states + [disk.fs];
        poured := poured + if wrote.Some? then wrote.value else 0;
      } else {
        if e.name == ["metadata.json"] {
          var readable := disk.OpenEntry();
          if !readable {
            return Crashed, written, poured, states;
          }
        }
        NoTarget(disk.fs, e, roots);
        TraceGrows(states, disk.fs, es, roots);
        states := states + [disk.fs];
        if e.name == ["metadata.json"] && !envOk(e.data) {
          return BadEnv, written, poured, states;
        }
      }
    }
    assert es[..|es|] == es;
    if errors == 0 {
      EndsStored(states, es, roots);
    }
    return if errors > 0 then Partial else Restored, written, poured, states;
  }

  lemma LandsThere(fs: Fs, fs': Fs, e: Entry, roots: Roots, n: nat, ok: bool)
    requires Target(e, roots).Somewhere? && Target(e, roots).rel != [] && n <= |e.data|
    requires Put(fs, fs', Landing(fs, Target(e, roots).root, Target(e, roots).rel))
    requires ok ==> AtEnd(fs', Landing(fs, Target(e, roots).root, Target(e, roots).rel)) == Present(File(e.data[..n]))
    ensures Step(fs, fs', e, roots) && PouredIfEnv(fs, fs', e, roots) && !IsEnv(e)
    ensures ok && n == |e.data| ==> Stored(fs, fs', e, roots)
    ensures var t := Target(e, roots); Hindered(fs, t.root, t.root + t.rel) ==> HinderedEntry(fs, e, roots)
  {
    hide Hindered, Put, Target, Landing, Resolve;
    if IsEnv(e) {
      EnvHasNoTarget(e, roots);
    }
    assert e.data[..|e.data|] == e.data;
  }

  // ---- What a whole restore keeps ----

  /** The entry takes the place of what stands at `p`. */
  predicate Hits(fs: Fs, e: Entry, roots: Roots, p: Path) {
    var w := Lands(fs, e, roots);
    w.Found? && (w.path == p || (w.path < p && !IsEnv(e)))
  }

  /** The entry is put below `p`. */
  predicate LeadsThrough(fs: Fs, e: Entry, roots: Roots, p: Path) {
    var w := Lands(fs, e, roots);
    w.Found? && p < w.path
  }

  lemma StepKeeps(fs: Fs, fs': Fs, e: Entry, roots: Roots, p: Path)
    requires Step(fs, fs', e, roots) && !Hits(fs, e, roots, p)
    ensures At(fs', p) == At(fs, p) || (At(fs, p) == Absent && At(fs', p) == Present(Dir) && LeadsThrough(fs, e, roots, p))
  {
    hide Lands;
    var w := Lands(fs, e, roots);
    if IsEnv(e) && w.Found? {
      var wrote: Option<nat> :| Poured(fs, fs', w, e.data, wrote);
      assert Kept(fs, fs', w.path, p);
    }
  }

  /** Only the places that entries land at have changed, and directories missing on the way to one. */
  lemma {:induction false} OnlyLandingsChange(states: seq<Fs>, es: seq<Entry>, roots: Roots, i: nat, n: nat, p: Path)
    requires Trace(states, es, roots) && i <= n < |states|
    requires forall k :: i <= k < n ==> !Hits(states[k], es[k], roots, p)
    ensures At(states[n], p) == At(states[i], p)
      || (At(states[i], p) == Absent && At(states[n], p) == Present(Dir)
        && exists k :: i <= k < n && LeadsThrough(states[k], es[k], roots, p))
  {
    hide Tree, Step, Hits, LeadsThrough;
    if i < n {
      OnlyLandingsChange(states, es, roots, i, n - 1, p);
      assert Step(states[n - 1], states[n - 1 + 1], es[n - 1], roots);
      StepKeeps(states[n - 1], states[n], es[n - 1], roots, p);
    }
  }

  lemma PrefixesCompare(a: Path, b: Path, p: Path)
    requires a <= p && b <= p
    ensures a <= b || b <= a
  {
  }

  /** The path lies below neither of the directories that the roots lead to, and the compose environment
      does not go there. */
  predicate Beyond(fs: Fs, e: Entry, roots: Roots, p: Path) {
    && (Real(fs, roots.site).Found? ==> !(Real(fs, roots.site).path < p))
    && (Real(fs, roots.data).Found? ==> !(Real(fs, roots.data).path < p))
    && (IsEnv(e) && Real(fs, EnvPath(roots)).Found? ==> Real(fs, EnvPath(roots)).path != p)
  }

  /** On any disk a restore changes nothing but what lies below the directories that its roots lead to
      at that moment, and the file that the path of the compose environment leads to; these directories
      and those above them or above that file may be made. */
  lemma RestoreStaysWhereItsPathsLead(states: seq<Fs>, es: seq<Entry>, roots: Roots, p: Path)
    requires Trace(states, es, roots)
    requires forall k :: 0 <= k < |states| - 1 ==> Beyond(states[k], es[k], roots, p)
    ensures var before, after := states[0], states[|states| - 1];
      At(after, p) != At(before, p) ==>
        At(before, p) == Absent && At(after, p) == Present(Dir) && exists k :: 0 <= k < |states| - 1 && AboveReal(states[k], es[k], roots, p)
  {
    hide Tree, Resolve, Target, Step;
    forall k | 0 <= k < |states| - 1
      ensures !Hits(states[k], es[k], roots, p)
      ensures LeadsThrough(states[k], es[k], roots, p) ==> AboveReal(states[k], es[k], roots, p)
    {
      LandsBelowReal(states[k], es[k], roots, p);
    }
    OnlyLandingsChange(states, es, roots, 0, |states| - 1, p);
  }

  /** One of the directories that the roots lead to, or above it, or above the compose environment. */
  predicate AboveReal(fs: Fs, e: Entry, roots: Roots, p: Path) {
    || (Real(fs, roots.site).Found? && p <= Real(fs, roots.site).path)
    || (Real(fs, roots.data).Found? && p <= Real(fs, roots.data).path)
    || (IsEnv(e) && Real(fs, EnvPath(roots)).Found? && p < Real(fs, EnvPath(roots)).path)
  }

  lemma LandsBelowReal(fs: Fs, e: Entry, roots: Roots, p: Path)
    requires Beyond(fs, e, roots, p)
    ensures !Hits(fs, e, roots, p)
    ensures LeadsThrough(fs, e, roots, p) ==> AboveReal(fs, e, roots, p)
  {
    hide Target, Resolve;
    var t := Target(e, roots);
    if t.Somewhere? && Real(fs, t.root).Found? {
      TargetIsBelow(e, roots);
      var r := Real(fs, t.root).path;
      assert r < r + t.rel;
      if p <= r + t.rel {
        PrefixesCompare(p, r, r + t.rel);
      }
    }
  }

  /** Below one of the roots. */
  predicate Inside(roots: Roots, p: Path) { roots.site < p || roots.data < p }

  /** Where the path of the compose environment leads below a root, or its entry changes nothing. */
  ghost predicate EnvInside(fs: Fs, fs': Fs, e: Entry, roots: Roots) {
    IsEnv(e) && fs' != fs ==> Real(fs, EnvPath(roots)).Found? && Inside(roots, Real(fs, EnvPath(roots)).path)
  }

  /** So for every compose environment that is reached. */
  ghost predicate EnvsInside(states: seq<Fs>, es: seq<Entry>, roots: Roots, n: nat)
    requires n < |states| && n <= |es|
  {
    forall k :: 0 <= k < n ==> EnvInside(states[k], states[k + 1], es[k], roots)
  }

  /** No symlink stands at or above a root that the archive restores to. */
  ghost predicate DirectRoots(fs: Fs, es: seq<Entry>, roots: Roots) {
    forall k :: 0 <= k < |es| && Target(es[k], roots).Somewhere? ==> Direct(fs, Target(es[k], roots).root)
  }

  lemma DirectLanding(fs: Fs, e: Entry, roots: Roots)
    requires Target(e, roots).Somewhere? && Direct(fs, Target(e, roots).root)
    ensures var t := Target(e, roots); Lands(fs, e, roots) == Found(t.root + t.rel, MAX_LINKS)
  {
    hide Target, Resolve;
    TargetIsBelow(e, roots);
    DirectIsReal(fs, Target(e, roots).root);
  }

  lemma TouchedKeepsDirect(fs: Fs, fs': Fs, spot: Path, root: Path)
    requires Direct(fs, root) && Touched(fs, fs', spot) && !(spot <= root)
    ensures Direct(fs', root)
  {
    forall n | 0 <= n <= |root|
      ensures !IsLink(At(fs', root[..n]))
    {
      assert !(spot <= root[..n]);
    }
  }

  lemma {:induction false} RootsStayDirect(states: seq<Fs>, es: seq<Entry>, roots: Roots, n: nat)
    requires Trace(states, es, roots) && Apart(roots) && n < |states| && DirectRoots(states[0], es, roots)
    requires EnvsInside(states, es, roots, n)
    ensures DirectRoots(states[n], es, roots)
  {
    hide Target, Tree, Lands, Direct, Touched, Resolve, EnvInside;
    if n > 0 {
      RootsStayDirect(states, es, roots, n - 1);
      var fs, fs', e := states[n - 1], states[n], es[n - 1];
      assert Step(fs, states[n - 1 + 1], e, roots) && EnvInside(fs, states[n - 1 + 1], e, roots);
      if fs' != fs {
        LandsInsideRoots(fs, fs', e, roots);
        forall k | 0 <= k < |es| && Target(es[k], roots).Somewhere?
          ensures Direct(fs', Target(es[k], roots).root)
        {
          TargetIsBelow(es[k], roots);
          NoRootInside(roots, Lands(fs, e, roots).path, Target(es[k], roots).root);
          TouchedKeepsDirect(fs, fs', Lands(fs, e, roots).path, Target(es[k], roots).root);
        }
      }
    }
  }

  /** What changes the disk lands below a root. */
  lemma LandsInsideRoots(fs: Fs, fs': Fs, e: Entry, roots: Roots)
    requires Step(fs, fs', e, roots) && EnvInside(fs, fs', e, roots) && fs' != fs
    requires Target(e, roots).Somewhere? ==> Direct(fs, Target(e, roots).root)
    ensures Lands(fs, e, roots).Found? && Inside(roots, Lands(fs, e, roots).path)
  {
    hide Target, Resolve, Direct, Landing;
    if Target(e, roots).Somewhere? {
      DirectLanding(fs, e, roots);
      TargetIsBelow(e, roots);
      var t := Target(e, roots);
      assert t.root < t.root + t.rel;
    }
  }

  lemma NoRootInside(roots: Roots, p: Path, root: Path)
    requires Apart(roots) && Inside(roots, p) && root in {roots.site, roots.data}
    ensures !(p <= root)
  {
  }

  /** Where no symlink stands at or above the roots and the compose environment, if it is restored, leads
      below one of them, a restore changes nothing outside them, whatever the archive names and wherever
      other symlinks point; missing directories down to them may be made. */
  lemma RestoreStaysUnderItsRoots(states: seq<Fs>, es: seq<Entry>, roots: Roots, p: Path)
    requires Trace(states, es, roots) && Apart(roots)
    requires DirectRoots(states[0], es, roots) && EnvsInside(states, es, roots, |states| - 1)
    requires !Inside(roots, p)
    ensures var before, after := states[0], states[|states| - 1];
      At(after, p) != At(before, p) ==>
        At(before, p) == Absent && At(after, p) == Present(Dir) && (p <= roots.site || p <= roots.data)
  {
    hide Step, Tree, EnvInside, Target, Direct;
    OutsideStays(states, es, roots, |states| - 1, p);
  }

  lemma {:induction false} OutsideStays(states: seq<Fs>, es: seq<Entry>, roots: Roots, n: nat, p: Path)
    requires Trace(states, es, roots) && Apart(roots) && n < |states|
    requires DirectRoots(states[0], es, roots) && EnvsInside(states, es, roots, n)
    requires !Inside(roots, p)
    ensures At(states[n], p) != At(states[0], p) ==>
      At(states[0], p) == Absent && At(states[n], p) == Present(Dir) && (p <= roots.site || p <= roots.data)
  {
    hide Tree, Target, Lands, Direct, Step, EnvInside;
    if n > 0 {
      OutsideStays(states, es, roots, n - 1, p);
      RootsStayDirect(states, es, roots, n - 1);
      var fs, fs', e := states[n - 1], states[n], es[n - 1];
      assert Step(fs, states[n - 1 + 1], e, roots) && EnvInside(fs, states[n - 1 + 1], e, roots);
      if fs' != fs {
        LandsInsideRoots(fs, fs', e, roots);
        var q := Lands(fs, e, roots).path;
        assert !(q <= p);
        StepKeeps(fs, fs', e, roots, p);
        if p < q {
          PrefixesCompare(p, if roots.site < q then roots.site else roots.data, q);
        }
      }
    }
  }

  /** The entry is put below its own root. */
  predicate LandsInside(fs: Fs, e: Entry, roots: Roots) {
    var w := Lands(fs, e, roots);
    Target(e, roots).Somewhere? && w.Found? && Target(e, roots).root < w.path
  }

  lemma AboveStoredIsDir(fs: Fs, p: Path, q: Path)
    requires Tree(fs) && p in fs && q < p
    ensures At(fs, q) == Present(Dir)
  {
    AboveIsDir(fs, p, |q|);
    assert p[..|q|] == q;
  }

  /** An entry that was stored stands below its root if and only if no symlink stood at or above the root. */
  lemma StoredInsideIffDirect(fs: Fs, fs': Fs, e: Entry, roots: Roots)
    requires Tree(fs') && Step(fs, fs', e, roots) && Stored(fs, fs', e, roots) && Target(e, roots).Somewhere?
    ensures LandsInside(fs, e, roots) <==> Direct(fs, Target(e, roots).root)
  {
    hide Target, Tree, Lands;
    var root := Target(e, roots).root;
    TargetIsBelow(e, roots);
    if Direct(fs, root) {
      DirectLanding(fs, e, roots);
    }
    if LandsInside(fs, e, roots) {
      var spot := Lands(fs, e, roots).path;
      forall n | 0 <= n <= |root|
        ensures !IsLink(At(fs, root[..n]))
      {
        AboveStoredIsDir(fs', spot, root[..n]);
      }
    }
  }

  ghost predicate FileAtOrAbove(fs: Fs, p: Path) {
    exists f :: f <= p && f in fs && fs[f].File?
  }

  /** Entries that are stored replace a symlink by nothing but files. */
  lemma {:induction false} LinkGivesWayToFile(states: seq<Fs>, es: seq<Entry>, roots: Roots, n: nat, q: Path)
    requires AllStored(states, es, roots) && n < |states| && IsLink(At(states[0], q))
    ensures IsLink(At(states[n], q)) || FileAtOrAbove(states[n], q)
  {
    hide Tree, Step, Stored, FileAtOrAbove;
    if n > 0 {
      LinkGivesWayToFile(states, es, roots, n - 1, q);
      assert Step(states[n - 1], states[n - 1 + 1], es[n - 1], roots);
      assert Stored(states[n - 1], states[n - 1 + 1], es[n - 1], roots);
      StoredKeepsFileAbove(states[n - 1], states[n], es[n - 1], roots, q);
    }
  }

  lemma StoredKeepsFileAbove(fs: Fs, fs': Fs, e: Entry, roots: Roots, q: Path)
    requires Step(fs, fs', e, roots) && Stored(fs, fs', e, roots)
    requires IsLink(At(fs, q)) || FileAtOrAbove(fs, q)
    ensures IsLink(At(fs', q)) || FileAtOrAbove(fs', q)
  {
    hide Target, Landing, Resolve;
    var w := Lands(fs, e, roots);
    if Target(e, roots).Nowhere? {
      if IsEnv(e) {
        var wrote: Option<nat> :| Poured(fs, fs', w, e.data, wrote);
        PouredKeepsFileAbove(fs, fs', w, e.data, wrote, q);
      }
    } else if w.Found? {
      if f :| f <= q && f in fs && fs[f].File? {
        if w.path <= f {
          assert w.path <= q && At(fs', w.path) == Present(File(e.data));
        } else {
          assert At(fs', f) == At(fs, f);
        }
      } else if w.path <= q {
        assert At(fs', w.path) == Present(File(e.data));
      } else {
        assert At(fs', q) == At(fs, q);
      }
    }
  }

  lemma PouredKeepsFileAbove(fs: Fs, fs': Fs, w: Way, data: Bytes, wrote: Option<nat>, q: Path)
    requires Poured(fs, fs', w, data, wrote) && (IsLink(At(fs, q)) || FileAtOrAbove(fs, q))
    ensures IsLink(At(fs', q)) || FileAtOrAbove(fs', q)
  {
    if w.Found? {
      if f :| f <= q && f in fs && fs[f].File? {
        assert f != w.path || wrote.None? ==> Kept(fs, fs', w.path, f);
        assert At(fs', f).Present? && At(fs', f).node.File?;
      } else {
        assert q != w.path || wrote.None?;
        assert Kept(fs, fs', w.path, q);
      }
    }
  }

  /** Nothing outside the roots has changed, but for missing directories that were made. */
  ghost predicate OnlyInside(fs: Fs, fs': Fs, roots: Roots) {
    forall p :: !Inside(roots, p) ==> At(fs', p) == At(fs, p) || (At(fs, p) == Absent && At(fs', p) == Present(Dir))
  }

  /** The path of the compose environment leads below a root, or nowhere where a file can be, or to a
      file that has these bytes already. */
  ghost predicate EnvSafe(fs: Fs, e: Entry, roots: Roots) {
    var w := Real(fs, EnvPath(roots));
    Pourable(fs, EnvPath(roots)) ==> Inside(roots, w.path) || At(fs, w.path) == Present(File(e.data))
  }

  ghost predicate EnvsSafe(states: seq<Fs>, es: seq<Entry>, roots: Roots, n: nat)
    requires n < |states| && n <= |es|
  {
    forall k :: 0 <= k < n && IsEnv(es[k]) ==> EnvSafe(states[k], es[k], roots)
  }

  /** Restoring the compose environment without a fault changes nothing outside the roots if and only if
      the disk is safe for it. */
  lemma EnvChangesOnlyInsideIff(fs: Fs, fs': Fs, e: Entry, roots: Roots)
    requires Tree(fs) && IsEnv(e) && PouredWhole(fs, fs', e, roots)
    ensures OnlyInside(fs, fs', roots) <==> EnvSafe(fs, e, roots)
    ensures EnvSafe(fs, e, roots) ==> EnvInside(fs, fs', e, roots)
  {
    hide Resolve, Inside, Barred, Tree;
    if Pourable(fs, EnvPath(roots)) {
      var w := Real(fs, EnvPath(roots));
      assert At(fs', w.path) == Present(File(e.data)) by {
        assert e.data[..|e.data|] == e.data;
      }
      forall p | p != w.path
        ensures At(fs', p) == At(fs, p) || (At(fs, p) == Absent && At(fs', p) == Present(Dir))
        ensures w.path in fs ==> At(fs', p) == At(fs, p)
      {
        assert Kept(fs, fs', w.path, p);
        if w.path in fs && p < w.path {
          AboveStoredIsDir(fs, w.path, p);
        }
      }
      if At(fs, w.path) == Present(File(e.data)) {
        SameEverywhere(fs, fs');
      }
    }
  }

  lemma SafeIsInside(states: seq<Fs>, es: seq<Entry>, roots: Roots, n: nat)
    requires Trace(states, es, roots) && n < |states| && PouredUpTo(states, es, roots, n) && EnvsSafe(states, es, roots, n)
    ensures EnvsInside(states, es, roots, n)
  {
    hide Tree, Step, EnvSafe, PouredWhole;
    forall k | 0 <= k < n && IsEnv(es[k])
      ensures EnvInside(states[k], states[k + 1], es[k], roots)
    {
      assert PouredWhole(states[k], states[k + 1], es[k], roots);
      EnvChangesOnlyInsideIff(states[k], states[k + 1], es[k], roots);
    }
  }

  /** In a restore that reports success and met no fault, every file lands below its own root and the
      compose environment changes nothing outside them, if and only if, before the restore, no symlink
      stood at or above a root that the archive restores to, and the disk is safe for the environment when
      it is reached. */
  lemma {:induction false} RestoreLandsInsideIff(states: seq<Fs>, es: seq<Entry>, roots: Roots)
    requires AllStored(states, es, roots) && Apart(roots) && PouredUpTo(states, es, roots, |es|)
    ensures (forall k :: 0 <= k < |es| ==> StaysInside(states[k], states[k + 1], es[k], roots))
       <==> DirectRoots(states[0], es, roots) && EnvsSafe(states, es, roots, |es|)
  {
    hide Target, Tree, Lands, Direct, LandsInside, Stored, Step, EnvInside, EnvSafe, OnlyInside, PouredWhole;
    forall k | 0 <= k < |es|
      ensures Target(es[k], roots).Somewhere? && LandsInside(states[k], es[k], roots) ==>
                Direct(states[0], Target(es[k], roots).root)
      ensures IsEnv(es[k]) ==> (OnlyInside(states[k], states[k + 1], roots) <==> EnvSafe(states[k], es[k], roots))
    {
      assert Step(states[k], states[k + 1], es[k], roots) && Stored(states[k], states[k + 1], es[k], roots);
      if Target(es[k], roots).Somewhere? && LandsInside(states[k], es[k], roots) {
        StoredInsideIffDirect(states[k], states[k + 1], es[k], roots);
        InsideWasDirect(states, es, roots, k);
      }
      if IsEnv(es[k]) {
        assert PouredWhole(states[k], states[k + 1], es[k], roots);
        EnvChangesOnlyInsideIff(states[k], states[k + 1], es[k], roots);
      }
    }
    if DirectRoots(states[0], es, roots) && EnvsSafe(states, es, roots, |es|) {
      SafeIsInside(states, es, roots, |es|);
      forall k | 0 <= k < |es|
        ensures StaysInside(states[k], states[k + 1], es[k], roots)
      {
        if Target(es[k], roots).Somewhere? {
          assert Step(states[k], states[k + 1], es[k], roots) && Stored(states[k], states[k + 1], es[k], roots);
          RootsStayDirect(states, es, roots, k);
          StoredInsideIffDirect(states[k], states[k + 1], es[k], roots);
        }
      }
    }
    if forall k :: 0 <= k < |es| ==> StaysInside(states[k], states[k + 1], es[k], roots) {
      forall k | 0 <= k < |es|
        ensures IsEnv(es[k]) ==> EnvSafe(states[k], es[k], roots)
        ensures Target(es[k], roots).Somewhere? ==> Direct(states[0], Target(es[k], roots).root)
      {
        assert StaysInside(states[k], states[k + 1], es[k], roots);
      }
    }
  }

  /** A file is put below its own root, and a compose environment changes nothing outside. */
  ghost predicate StaysInside(fs: Fs, fs': Fs, e: Entry, roots: Roots) {
    (Target(e, roots).Somewhere? ==> LandsInside(fs, e, roots)) && (IsEnv(e) ==> OnlyInside(fs, fs', roots))
  }

  lemma InsideWasDirect(states: seq<Fs>, es: seq<Entry>, roots: Roots, k: nat)
    requires AllStored(states, es, roots) && k < |es| && LandsInside(states[k], es[k], roots)
    requires Direct(states[k], Target(es[k], roots).root)
    ensures Direct(states[0], Target(es[k], roots).root)
  {
    hide Target, Tree, Lands;
    var root, spot := Target(es[k], roots).root, Lands(states[k], es[k], roots).path;
    assert Step(states[k], states[k + 1], es[k], roots) && Stored(states[k], states[k + 1], es[k], roots);
    forall n | 0 <= n <= |root|
      ensures !IsLink(At(states[0], root[..n]))
    {
      if IsLink(At(states[0], root[..n])) {
        LinkGivesWayToFile(states, es, roots, k, root[..n]);
        var f :| f <= root[..n] && f in states[k] && states[k][f].File?;
        assert At(states[k + 1], f) == At(states[k], f);
        AboveStoredIsDir(states[k + 1], spot, f);
      }
    }
  }

  /** The failing input: a root, or a directory above it, has been replaced by a symlink to another place.
      The root's files are then restored there. */
  lemma LinkedRootLeadsAway(fs: Fs, e: Entry, roots: Roots, n: nat, away: Path)
    requires Target(e, roots).Somewhere?
    requires var root := Target(e, roots).root; 0 < n <= |root| && RedirectedAt(fs, root, n, away)
    ensures var t := Target(e, roots); Lands(fs, e, roots) == Found(away + t.root[n..] + t.rel, MAX_LINKS - 1)
  {
    hide Target, Resolve;
    TargetIsBelow(e, roots);
    LinkLeadsAway(fs, Target(e, roots).root, n, away);
  }

  /** The failing input for the compose environment, with roots of their own: a symlink at `compose` or at
      `compose/.env`. Restoring writes to the place it names, and a backup reads from there. */
  lemma LinkedEnvLeadsAway(fs: Fs, roots: Roots, n: nat, away: Path)
    requires Proper(roots.data) && |roots.data| < n <= |roots.data| + 2 && RedirectedAt(fs, EnvPath(roots), n, away)
    ensures Direct(fs, roots.data)
    ensures Real(fs, EnvPath(roots)) == Found(away + EnvPath(roots)[n..], MAX_LINKS - 1)
  {
    hide Resolve;
    var env := EnvPath(roots);
    forall k | 0 <= k <= |roots.data|
      ensures !IsLink(At(fs, roots.data[..k]))
    {
      assert roots.data[..k] == env[..n - 1][..k];
    }
    LinkLeadsAway(fs, env, n, away);
  }

  // ---- What a whole restore leaves ----

  /** Of the entries up to `n` none later takes the place of this one. */
  ghost predicate Lasting(states: seq<Fs>, es: seq<Entry>, roots: Roots, i: nat, n: nat)
    requires i < n <= |es| && n < |states|
  {
    var w := Lands(states[i], es[i], roots);
    w.Found? ==> forall j :: i < j < n ==> !Hits(states[j], es[j], roots, w.path)
  }

  /** After a restore that reports success every file stands with all its bytes, unless a later entry took
      its place. */
  lemma StoredEntriesStand(states: seq<Fs>, es: seq<Entry>, roots: Roots, i: nat, n: nat)
    requires AllStored(states, es, roots) && i < n <= |es| && Target(es[i], roots).Somewhere? && Lasting(states, es, roots, i, n)
    ensures AtEnd(states[n], Lands(states[i], es[i], roots)) == Present(File(es[i].data))
  {
    hide Tree, Step, Lands, Target, Hits, LeadsThrough;
    assert Stored(states[i], states[i + 1], es[i], roots);
    OnlyLandingsChange(states, es, roots, i + 1, n, Lands(states[i], es[i], roots).path);
  }

  // ---- Archiving ----

  /** What a backup is asked for, and what the disk holds back, in silence: nodes that cannot be
      inspected or listed, and the number of bytes that could be read of a file that could not be read
      to its end, 0 where it could not be opened. Paths are the ones the walk uses. `compose` is set for a
      compose site, `envRead` if its environment could be read. */
  datatype Plan = Plan(
    roots: Roots,
    withSite: bool,
    dbDirs: set<string>,
    unseen: set<Path>,
    cut: map<Path, nat>,
    compose: bool,
    envRead: bool)

  predicate FitPlan(plan: Plan) { Apart(plan.roots) && Proper(plan.roots.site) && Proper(plan.roots.data) }

  function RootOf(plan: Plan, p: Path): Path { if plan.roots.site <= p then plan.roots.site else plan.roots.data }

  function Rel(plan: Plan, p: Path): Path
    requires RootOf(plan, p) <= p
  {
    p[|RootOf(plan, p)|..]
  }

  /** Where the walk finds `p`: it follows the symlinks above the root, but not one in its place. */
  function Source(fs: Fs, plan: Plan, p: Path): Way
    requires RootOf(plan, p) <= p
  {
    Extended(Spot(fs, RootOf(plan, p)), Rel(plan, p))
  }

  predicate Reached(plan: Plan, root: Path, p: Path) {
    root <= p && forall n :: |root| <= n <= |p| ==> p[..n] !in plan.unseen
  }

  predicate IsFile(m: Maybe) { m.Present? && m.node.File? }

  /** The walk comes to a file here that is not part of a database directory. */
  predicate Archived(fs: Fs, plan: Plan, p: Path) {
    && Reached(plan, RootOf(plan, p), p) && IsFile(AtEnd(fs, Source(fs, plan, p)))
    && if RootOf(plan, p) == plan.roots.site then plan.withSite else Rel(plan, p) != [] && Rel(plan, p)[0] !in plan.dbDirs
  }

  function Original(fs: Fs, plan: Plan, p: Path): Bytes
    requires Archived(fs, plan, p)
  {
    AtEnd(fs, Source(fs, plan, p)).node.bytes
  }

  /** How far a file of this length could be read. */
  function Readable(plan: Plan, p: Path, length: nat): (k: nat)
    ensures k <= length
  {
    if p in plan.cut && plan.cut[p] < length then plan.cut[p] else length
  }

  function BytesRead(fs: Fs, plan: Plan, p: Path): (k: nat)
    requires Archived(fs, plan, p)
    ensures k <= |Original(fs, plan, p)|
  {
    Readable(plan, p, |Original(fs, plan, p)|)
  }

  function EntryFor(fs: Fs, plan: Plan, p: Path): Entry
    requires Archived(fs, plan, p)
  {
    var prefix := if RootOf(plan, p) == plan.roots.site then "files" else "data";
    Entry([prefix] + Rel(plan, p), Original(fs, plan, p)[..BytesRead(fs, plan, p)])
  }

  ghost predicate Distinct(ps: seq<Path>) { forall i, j :: 0 <= i < j < |ps| ==> ps[i] != ps[j] }

  /** Entry `i` holds the file at `src[i]`. */
  ghost predicate Matches(fs: Fs, plan: Plan, es: seq<Entry>, src: seq<Path>) {
    && |es| == |src| && Distinct(src)
    && forall i :: 0 <= i < |src| ==> Archived(fs, plan, src[i]) && es[i] == EntryFor(fs, plan, src[i])
  }

  /** And every file that the walks come to has an entry. */
  ghost predicate Holds(fs: Fs, plan: Plan, es: seq<Entry>, src: seq<Path>) {
    Matches(fs, plan, es, src) && forall p :: Archived(fs, plan, p) ==> p in src
  }

  /** A file archived under its lexical path is the one the path leads to, and no symlink stands below its
      root. It stands below the root itself if and only if no symlink stands at or above the root. */
  lemma ArchivedStandsInsideIffDirect(fs: Fs, plan: Plan, p: Path)
    requires Tree(fs) && FitPlan(plan) && Archived(fs, plan, p)
    ensures var w := Source(fs, plan, p); w.Found? && IsFile(At(fs, w.path)) && Direct(fs, w.path)
    ensures RootOf(plan, p) <= Source(fs, plan, p).path <==> Direct(fs, RootOf(plan, p))
    ensures Direct(fs, RootOf(plan, p)) ==> Source(fs, plan, p).path == p
  {
    hide Resolve, Tree;
    var root, q := RootOf(plan, p), Source(fs, plan, p).path;
    forall n | 0 <= n <= |q|
      ensures !IsLink(At(fs, q[..n]))
    {
      assert q[..|q|] == q;
      if n < |q| {
        AboveIsDir(fs, q, n);
      }
    }
    if Direct(fs, root) {
      SpotOfDirect(fs, root);
    }
    if root <= q {
      forall n | 0 <= n <= |root|
        ensures !IsLink(At(fs, root[..n]))
      {
        assert root[..n] == q[..n];
      }
    }
  }

  lemma SpotOfDirect(fs: Fs, p: Path)
    requires Proper(p) && Direct(fs, p)
    ensures Spot(fs, p) == Found(p, MAX_LINKS)
  {
    hide Resolve;
    if p != [] {
      ProperParent(p);
      assert forall n :: 0 <= n <= |Parent(p)| ==> Parent(p)[..n] == p[..n];
      DirectIsReal(fs, Parent(p));
      assert Parent(p) + [p[|p| - 1]] == p;
    }
  }

  /** The failing input: with a symlink above the root, the archive holds the files of another place. */
  lemma LinkAboveRootIsFollowed(fs: Fs, plan: Plan, p: Path, n: nat, away: Path)
    requires FitPlan(plan) && RootOf(plan, p) <= p
    requires var root := RootOf(plan, p); 0 < n < |root| && RedirectedAt(fs, Parent(root), n, away)
    ensures Source(fs, plan, p) == Found(away + p[n..], MAX_LINKS - 1)
  {
    hide Resolve, RedirectedAt;
    var root := RootOf(plan, p);
    ProperParent(root);
    LinkLeadsAway(fs, Parent(root), n, away);
    assert away + Parent(root)[n..] + [root[|root| - 1]] == away + root[n..];
    assert away + root[n..] + p[|root|..] == away + p[n..];
  }

  /** The compose environment is read through any symlink. */
  function EnvEntry(fs: Fs, plan: Plan): Option<Entry> {
    var found := Stat(fs, EnvPath(plan.roots));
    if plan.compose && plan.envRead && IsFile(found) then Some(Entry(["compose_env"], found.node.bytes)) else None
  }

  /** What the archive holds of the disk comes from below the roots if and only if no symlink stands at or
      above a root with files in it and the path of the compose environment leads below a root. */
  lemma ArchiveComesFromInsideIff(fs: Fs, plan: Plan)
    requires Tree(fs) && FitPlan(plan)
    ensures (forall p :: Archived(fs, plan, p) ==> RootOf(plan, p) <= Source(fs, plan, p).path) && EnvReadInside(fs, plan)
       <==> (forall p :: Archived(fs, plan, p) ==> Direct(fs, RootOf(plan, p))) && EnvReadInside(fs, plan)
  {
    hide Spot, Direct, Tree, EnvReadInside;
    forall p | Archived(fs, plan, p)
      ensures RootOf(plan, p) <= Source(fs, plan, p).path <==> Direct(fs, RootOf(plan, p))
    {
      ArchivedStandsInsideIffDirect(fs, plan, p);
    }
  }

  predicate EnvReadInside(fs: Fs, plan: Plan) {
    EnvEntry(fs, plan).Some? ==> Inside(plan.roots, Real(fs, EnvPath(plan.roots)).path)
  }

  /** The environment in the archive is the file at its own path if and only if no symlink stands at or
      above the path. */
  lemma EnvIsReadInPlaceIffDirect(fs: Fs, plan: Plan)
    requires Tree(fs) && FitPlan(plan) && EnvEntry(fs, plan).Some?
    ensures Real(fs, EnvPath(plan.roots)).path == EnvPath(plan.roots) <==> Direct(fs, EnvPath(plan.roots))
    ensures Direct(fs, EnvPath(plan.roots)) ==> At(fs, EnvPath(plan.roots)) == Present(File(EnvEntry(fs, plan).value.data))
  {
    hide Resolve, Tree;
    LeadsToItselfIffDirect(fs, EnvPath(plan.roots));
  }

  predicate Picked(fs: Fs, plan: Plan, root: Path, p: Path) { Archived(fs, plan, p) && RootOf(plan, p) == root }

  lemma RootOfBelow(plan: Plan, root: Path, p: Path)
    requires FitPlan(plan) && root in {plan.roots.site, plan.roots.data} && root <= p
    ensures RootOf(plan, p) == root
  {
    if plan.roots.site <= p && plan.roots.data <= p {
      PrefixesCompare(plan.roots.site, plan.roots.data, p);
    }
  }

  lemma NothingPicked(fs: Fs, plan: Plan, root: Path)
    requires Spot(fs, root).Lost?
    ensures forall p :: !Picked(fs, plan, root, p)
  {
  }

  /** The nodes below `spot`, by the paths below `root` that the walk gives them. */
  function Subtree(fs: Fs, root: Path, spot: Path): set<Path> {
    set p | p in fs && spot <= p :: root + p[|spot|..]
  }

  lemma PickedIsThere(fs: Fs, plan: Plan, root: Path)
    requires Spot(fs, root).Found?
    ensures forall p :: Picked(fs, plan, root, p) ==> p in Subtree(fs, root, Spot(fs, root).path)
  {
    hide Spot;
    var spot := Spot(fs, root).path;
    forall p | Picked(fs, plan, root, p)
      ensures p in Subtree(fs, root, spot)
    {
      var q := Source(fs, plan, p).path;
      assert q[|spot|..] == p[|root|..] && p == root + p[|root|..];
    }
  }

  /** A root that is a directory, be it through a symlink, is no file. */
  lemma RootIsNoFile(fs: Fs, plan: Plan, root: Path)
    requires FitPlan(plan) && root in {plan.roots.site, plan.roots.data} && Stat(fs, root) == Present(Dir)
    ensures !IsFile(Lstat(fs, root))
  {
    hide Resolve;
    assert root != [] && root[|root| - 1] in root;
    RealStep(fs, root);
  }

  /** What the callback does with a node. */
  lemma Pickable(fs: Fs, plan: Plan, root: Path, prefix: string, p: Path)
    requires Tree(fs) && FitPlan(plan) && prefix in {"files", "data"} && root <= p
    requires prefix == "files" ==> root == plan.roots.site && plan.withSite
    requires prefix == "data" ==> root == plan.roots.data && Stat(fs, root) == Present(Dir)
    requires Spot(fs, root).Found? && Spot(fs, root).path + p[|root|..] in fs
    ensures var node := fs[Spot(fs, root).path + p[|root|..]];
      && (node.File? && prefix == "data" ==> p[|root|..] != [])
      && (Picked(fs, plan, root, p) <==>
          Reached(plan, root, p) && node.File? && (prefix == "data" ==> p[|root|..][0] !in plan.dbDirs))
    ensures Archived(fs, plan, p) ==>
      var node := fs[Spot(fs, root).path + p[|root|..]];
      node.File? && EntryFor(fs, plan, p) == Entry([prefix] + p[|root|..], node.bytes[..Readable(plan, p, |node.bytes|)])
  {
    hide Resolve, Tree, Reached, Readable, Spot;
    RootOfBelow(plan, root, p);
    assert Rel(plan, p) == p[|root|..];
    if prefix == "data" {
      RootIsNoFile(fs, plan, root);
      assert p[|root|..] == [] ==> Spot(fs, root).path + p[|root|..] == Spot(fs, root).path;
    }
  }

  /** Added to `before` are the files among the nodes that were visited. */
  ghost predicate Taken(fs: Fs, plan: Plan, root: Path, before: seq<Path>, src: seq<Path>, visited: set<Path>) {
    forall p :: p in src <==> p in before || (p in visited && Picked(fs, plan, root, p))
  }

  lemma TakeOne(fs: Fs, plan: Plan, root: Path, before: seq<Path>, src: seq<Path>, visited: set<Path>, p: Path)
    requires Taken(fs, plan, root, before, src, visited)
    ensures Taken(fs, plan, root, before, if Picked(fs, plan, root, p) then src + [p] else src, visited + {p})
    ensures p !in visited && p !in before ==> p !in src
  {
  }

  lemma OneMoreMatch(fs: Fs, plan: Plan, root: Path, es: seq<Entry>, src: seq<Path>, e: Entry, p: Path)
    requires Matches(fs, plan, es, src) && Picked(fs, plan, root, p) && p !in src
    requires Archived(fs, plan, p) ==> e == EntryFor(fs, plan, p)
    ensures Matches(fs, plan, es + [e], src + [p])
  {
  }

  /** `filepath.Walk` over one of the roots, in any order, with the callback of the backup. */
  method Walk(fs: Fs, plan: Plan, root: Path, prefix: string, before: seq<Entry>, ghost srcBefore: seq<Path>)
    returns (es: seq<Entry>, ghost src: seq<Path>)
    requires Tree(fs) && FitPlan(plan)
    requires prefix in {"files", "data"}
    requires prefix == "files" ==> root == plan.roots.site && plan.withSite
    requires prefix == "data" ==> root == plan.roots.data && Stat(fs, root) == Present(Dir)
    requires Matches(fs, plan, before, srcBefore) && forall p :: p in srcBefore ==> !(root <= p)
    ensures before <= es && srcBefore <= src && Matches(fs, plan, es, src)
    ensures forall p :: p in src <==> p in srcBefore || Picked(fs, plan, root, p)
  {
    hide Archived, EntryFor, Matches, Reached, Readable, Tree, Resolve, Spot, FitPlan, Taken, Picked, Subtree;
    es, src := before, srcBefore;
    if Spot(fs, root).Lost? {
      NothingPicked(fs, plan, root);
      return;
    }
    var spot := Spot(fs, root).path;
    var todo := Subtree(fs, root, spot);
    ghost var all := todo;
    PickedIsThere(fs, plan, root);
    SubtreeIsThere(fs, root, spot);
    assert all - todo == {};
    TakenAtFirst(fs, plan, root, srcBefore);
    while todo != {}
      invariant todo <= all
      invariant before <= es && srcBefore <= src && Matches(fs, plan, es, src)
      invariant Taken(fs, plan, root, srcBefore, src, all - todo)
    {
      var path :| path in todo;
      TakeOne(fs, plan, root, srcBefore, src, all - todo, path);
      assert all - todo + {path} == all - (todo - {path});
      todo := todo - {path};
      var relPath := path[|root|..];
      var node := fs[spot + relPath];
      Pickable(fs, plan, root, prefix, path);
      if !Reached(plan, root, path) || node.Dir? {
        continue;
      }
      if node.Symlink? {
        continue;
      }
      if prefix == "data" {
        if relPath[0] in plan.dbDirs {
          continue;
        }
      }
      var e := Entry([prefix] + relPath, node.bytes[..Readable(plan, path, |node.bytes|)]);
      OneMoreMatch(fs, plan, root, es, src, e, path);
      es := es + [e];
      src := src + [path];
    }
    assert all - todo == all;
    TakenAtLast(fs, plan, root, srcBefore, src, all);
  }

  lemma TakenAtFirst(fs: Fs, plan: Plan, root: Path, src: seq<Path>)
    ensures Taken(fs, plan, root, src, src, {})
  {
  }

  lemma TakenAtLast(fs: Fs, plan: Plan, root: Path, before: seq<Path>, src: seq<Path>, all: set<Path>)
    requires Taken(fs, plan, root, before, src, all) && forall p :: Picked(fs, plan, root, p) ==> p in all
    ensures forall p :: p in src <==> p in before || Picked(fs, plan, root, p)
  {
  }

  lemma SubtreeIsThere(fs: Fs, root: Path, spot: Path)
    ensures forall p :: p in Subtree(fs, root, spot) ==> root <= p && spot + p[|root|..] in fs
  {
    forall p | p in Subtree(fs, root, spot)
      ensures root <= p && spot + p[|root|..] in fs
    {
      var q :| q in fs && spot <= q && p == root + q[|spot|..];
      assert p[|root|..] == q[|spot|..] && q == spot + q[|spot|..];
    }
  }

  /** An entry that is no file of the site: a database dump, the metadata, the compose environment. */
  predicate Outside(e: Entry) { e.name == [] || e.name[0] !in {"files", "data"} }

  /** The files' entries stand in the archive from `off` on, the compose environment at its end. */
  ghost predicate Archive(fs: Fs, plan: Plan, es: seq<Entry>, src: seq<Path>, off: nat) {
    && off + |src| < |es| && Holds(fs, plan, es[off..off + |src|], src)
    && (forall i :: 0 <= i < |es| && !(off <= i < off + |src|) ==> Outside(es[i]))
    && (forall i :: 0 <= i < |es| - 1 ==> !IsEnv(es[i]))
    && (EnvEntry(fs, plan).Some? ==> es[|es| - 1] == EnvEntry(fs, plan).value)
    && (EnvEntry(fs, plan).None? ==> !IsEnv(es[|es| - 1]))
  }

  predicate Visited(plan: Plan, todo: set<Path>, p: Path) { RootOf(plan, p) <= p && RootOf(plan, p) !in todo }

  // What the archive holds, said of the disk alone.

  /** Every regular file below the site root that the walk can inspect and list has an entry, with as many
      of its bytes as could be read, and only these have. */
  lemma SiteFilesAreArchivedIff(fs: Fs, plan: Plan, es: seq<Entry>, src: seq<Path>, off: nat, rel: Path, bytes: Bytes)
    requires Tree(fs) && FitPlan(plan) && Archive(fs, plan, es, src, off)
    ensures var root := plan.roots.site;
      (exists i :: 0 <= i < |es| && es[i] == Entry(["files"] + rel, bytes)) <==>
      && plan.withSite && (forall n :: 0 <= n <= |rel| ==> root + rel[..n] !in plan.unseen)
      && Spot(fs, root).Found? && Spot(fs, root).path + rel in fs && fs[Spot(fs, root).path + rel].File?
      && var whole := fs[Spot(fs, root).path + rel].bytes;
        bytes == if root + rel in plan.cut && plan.cut[root + rel] < |whole| then whole[..plan.cut[root + rel]] else whole
  {
    hide Spot, Tree;
    FilesAreArchivedIff(fs, plan, es, src, off, plan.roots.site, rel, bytes);
    SeenIff(plan, plan.roots.site, rel);
  }

  /** The same for the data root, where it is a directory, without the database directories. */
  lemma DataFilesAreArchivedIff(fs: Fs, plan: Plan, es: seq<Entry>, src: seq<Path>, off: nat, rel: Path, bytes: Bytes)
    requires Tree(fs) && FitPlan(plan) && Archive(fs, plan, es, src, off)
    ensures var root := plan.roots.data;
      (exists i :: 0 <= i < |es| && es[i] == Entry(["data"] + rel, bytes)) <==>
      && Stat(fs, root) == Present(Dir) && rel != [] && rel[0] !in plan.dbDirs
      && (forall n :: 0 <= n <= |rel| ==> root + rel[..n] !in plan.unseen)
      && Spot(fs, root).Found? && Spot(fs, root).path + rel in fs && fs[Spot(fs, root).path + rel].File?
      && var whole := fs[Spot(fs, root).path + rel].bytes;
        bytes == if root + rel in plan.cut && plan.cut[root + rel] < |whole| then whole[..plan.cut[root + rel]] else whole
  {
    hide Spot, Tree, Resolve;
    var root := plan.roots.data;
    FilesAreArchivedIff(fs, plan, es, src, off, root, rel, bytes);
    SeenIff(plan, root, rel);
    if Archived(fs, plan, root + rel) {
      RootOfBelow(plan, root, root + rel);
      RootOfPicked(fs, plan, root + rel);
    }
  }

  lemma SeenIff(plan: Plan, root: Path, rel: Path)
    ensures Reached(plan, root, root + rel) <==> forall n :: 0 <= n <= |rel| ==> root + rel[..n] !in plan.unseen
  {
    var p := root + rel;
    assert forall n :: 0 <= n <= |rel| ==> p[..|root| + n] == root + rel[..n];
    if Reached(plan, root, p) {
      forall n | 0 <= n <= |rel|
        ensures root + rel[..n] !in plan.unseen
      {
        assert p[..|root| + n] !in plan.unseen;
      }
    } else {
      var n :| |root| <= n <= |p| && p[..n] in plan.unseen;
      assert p[..n] == root + rel[..n - |root|];
    }
  }

  lemma FilesAreArchivedIff(
    fs: Fs, plan: Plan, es: seq<Entry>, src: seq<Path>, off: nat, root: Path, rel: Path, bytes: Bytes)
    requires FitPlan(plan) && Archive(fs, plan, es, src, off) && root in {plan.roots.site, plan.roots.data}
    ensures var prefix := if root == plan.roots.site then "files" else "data";
      (exists i :: 0 <= i < |es| && es[i] == Entry([prefix] + rel, bytes)) <==>
      Archived(fs, plan, root + rel) && EntryFor(fs, plan, root + rel).data == bytes
    ensures Archived(fs, plan, root + rel) ==> RootOf(plan, root + rel) == root && Rel(plan, root + rel) == rel
  {
    hide Archived, Spot, EntryFor, Source;
    var prefix := if root == plan.roots.site then "files" else "data";
    var p := root + rel;
    RootOfBelow(plan, root, p);
    if Archived(fs, plan, p) {
      EntryParts(fs, plan, p);
    }
    if i :| 0 <= i < |es| && es[i] == Entry([prefix] + rel, bytes) {
      assert off <= i < off + |src|;
      var k := i - off;
      assert es[i] == es[off..off + |src|][k];
      EntryNames(fs, plan, src[k], prefix, rel);
      EntryParts(fs, plan, src[k]);
    }
    if Archived(fs, plan, p) {
      var k :| 0 <= k < |src| && src[k] == p;
      assert es[off + k] == es[off..off + |src|][k] == EntryFor(fs, plan, p);
    }
  }

  lemma EntryParts(fs: Fs, plan: Plan, p: Path)
    requires Archived(fs, plan, p)
    ensures RootOf(plan, p) <= p
    ensures var prefix := if RootOf(plan, p) == plan.roots.site then "files" else "data";
      EntryFor(fs, plan, p) == Entry([prefix] + Rel(plan, p), EntryFor(fs, plan, p).data)
  {
  }

  /** An entry's name tells the file. */
  lemma EntryNames(fs: Fs, plan: Plan, p: Path, prefix: string, rel: Path)
    requires FitPlan(plan) && Archived(fs, plan, p) && prefix in {"files", "data"} && EntryFor(fs, plan, p).name == [prefix] + rel
    ensures p == (if prefix == "files" then plan.roots.site else plan.roots.data) + rel
  {
    hide Spot;
    var name := EntryFor(fs, plan, p).name;
    assert name[0] == prefix && name[1..] == rel == Rel(plan, p);
    assert p == RootOf(plan, p) + Rel(plan, p);
  }

  /** The environment of a compose site is archived exactly as its path leads to it. */
  lemma EnvironmentIsArchivedIff(fs: Fs, plan: Plan, es: seq<Entry>, src: seq<Path>, off: nat, bytes: Bytes)
    requires Archive(fs, plan, es, src, off)
    ensures (exists i :: 0 <= i < |es| && es[i] == Entry(["compose_env"], bytes)) <==>
      plan.compose && plan.envRead && Stat(fs, plan.roots.data + ["compose", ".env"]) == Present(File(bytes))
  {
    hide Resolve, Archived;
    if i :| 0 <= i < |es| && es[i] == Entry(["compose_env"], bytes) {
      assert IsEnv(es[i]) && i == |es| - 1;
    }
  }

  /** So what a backup makes of a site with a file in it is fit to restore, if its environment is allowed. */
  lemma ArchiveWithAFileIsFit(
    fs: Fs, plan: Plan, es: seq<Entry>, src: seq<Path>, off: nat, p: Path, parses: Bytes -> bool, envOk: Bytes -> bool)
    requires Archive(fs, plan, es, src, off) && Archived(fs, plan, p) && p != RootOf(plan, p)
    requires forall i :: 0 <= i < |es| && es[i].name == ["metadata.json"] && parses(es[i].data) ==> envOk(es[i].data)
    ensures FitToRestore(es, parses, envOk)
  {
    hide Archived, Spot;
    var k :| 0 <= k < |src| && src[k] == p;
    assert es[off + k] == es[off..off + |src|][k] == EntryFor(fs, plan, p);
    ArchivedIsBelow(fs, plan, p);
    assert Rel(plan, p) != [] && es[off + k].name[0] in {"files", "data", "databases"};
  }

  lemma ArchivedIsBelow(fs: Fs, plan: Plan, p: Path)
    requires Archived(fs, plan, p)
    ensures RootOf(plan, p) <= p
  {
  }

  /** The walks, with the declared paths equal to the site root, or empty. */
  method ArchiveFiles(fs: Fs, plan: Plan) returns (files: seq<Entry>, ghost src: seq<Path>)
    requires Tree(fs) && FitPlan(plan)
    ensures Holds(fs, plan, files, src)
  {
    var backupPaths: map<Path, string> := map[];
    if plan.withSite {
      backupPaths := backupPaths[plan.roots.site := "files"];
    }
    if Stat(fs, plan.roots.data) == Present(Dir) {
      backupPaths := backupPaths[plan.roots.data := "data"];
    }
    hide Archived, EntryFor, Reached, Tree, Resolve, Matches, Stat;
    files, src := [], [];
    var todo := backupPaths.Keys;
    NothingMatches(fs, plan);
    while todo != {}
      invariant todo <= backupPaths.Keys
      invariant Matches(fs, plan, files, src)
      invariant forall p :: p in src ==> Visited(plan, todo, p)
      invariant forall r, p :: r in backupPaths && r !in todo && Picked(fs, plan, r, p) ==> p in src
    {
      var root :| root in todo;
      forall p | p in src
        ensures !(root <= p)
      {
        if root <= p {
          RootOfBelow(plan, root, p);
        }
      }
      ghost var src0 := src;
      files, src := Walk(fs, plan, root, backupPaths[root], files, src);
      forall p | p in src
        ensures Visited(plan, todo - {root}, p)
      {
        if p !in src0 {
          PickedIsBelow(fs, plan, root, p);
        }
      }
      todo := todo - {root};
    }
    forall p | Archived(fs, plan, p)
      ensures p in src
    {
      RootOfPicked(fs, plan, p);
      assert Picked(fs, plan, RootOf(plan, p), p);
    }
  }

  method CreateBackup(fs: Fs, plan: Plan, dumps: seq<Entry>, metadata: Bytes) returns (es: seq<Entry>, ghost src: seq<Path>)
    requires Tree(fs) && FitPlan(plan)
    requires forall i :: 0 <= i < |dumps| ==> dumps[i].name != [] && dumps[i].name[0] == "databases"
    ensures Archive(fs, plan, es, src, |dumps|)
    ensures es[..|dumps|] == dumps
    ensures es[|dumps| + |src|..] ==
      [Entry(["metadata.json"], metadata)] + if EnvEntry(fs, plan).Some? then [EnvEntry(fs, plan).value] else []
  {
    hide Tree, Resolve, Matches, Stat, Archived;
    var files;
    files, src := ArchiveFiles(fs, plan);
    MatchLengths(fs, plan, files, src);
    FilesAreNoEnv(fs, plan, files, src);
    es := dumps + files + [Entry(["metadata.json"], metadata)];
    assert es[|dumps|..|dumps| + |src|] == files;
    if plan.compose {
      var found := Stat(fs, EnvPath(plan.roots));
      if plan.envRead && IsFile(found) {
        es := es + [Entry(["compose_env"], found.node.bytes)];
        assert es[|dumps|..|dumps| + |src|] == files;
      }
    }
  }

  lemma FilesAreNoEnv(fs: Fs, plan: Plan, es: seq<Entry>, src: seq<Path>)
    requires Matches(fs, plan, es, src)
    ensures forall i :: 0 <= i < |es| ==> !IsEnv(es[i])
  {
    forall i | 0 <= i < |es|
      ensures !IsEnv(es[i])
    {
      assert es[i].name[0] in {"files", "data"};
    }
  }

  lemma NothingMatches(fs: Fs, plan: Plan)
    ensures Matches(fs, plan, [], [])
  {
  }

  lemma MatchLengths(fs: Fs, plan: Plan, es: seq<Entry>, src: seq<Path>)
    requires Matches(fs, plan, es, src)
    ensures |es| == |src|
  {
  }

  lemma PickedIsBelow(fs: Fs, plan: Plan, root: Path, p: Path)
    requires Picked(fs, plan, root, p)
    ensures RootOf(plan, p) == root <= p
  {
  }

  /** The walk of an archived file was made: its root was asked for, or is a directory. */
  lemma RootOfPicked(fs: Fs, plan: Plan, p: Path)
    requires Tree(fs) && FitPlan(plan) && Archived(fs, plan, p)
    ensures RootOf(plan, p) == plan.roots.site ==> plan.withSite
    ensures RootOf(plan, p) != plan.roots.site ==> RootOf(plan, p) == plan.roots.data && Stat(fs, plan.roots.data) == Present(Dir)
  {
    hide Resolve, Tree;
    var root := RootOf(plan, p);
    if root != plan.roots.site {
      var spot, q := Spot(fs, root).path, Source(fs, plan, p).path;
      AboveStoredIsDir(fs, q, spot);
      assert root != [] && root[|root| - 1] in root;
      RealStep(fs, root);
    }
  }

  // ---- There and back ----

  predicate ProperNames(fs: Fs) { forall p :: p in fs ==> Proper(p) }

  lemma ArchivedIsProper(fs: Fs, plan: Plan, p: Path)
    requires ProperNames(fs) && FitPlan(plan) && Archived(fs, plan, p)
    ensures Proper(RootOf(plan, p) + Rel(plan, p)) && RootOf(plan, p) + Rel(plan, p) == p
  {
    var q := Source(fs, plan, p).path;
    forall c | c in Rel(plan, p)
      ensures c in q
    {
    }
  }

  /** The entry of a file below its root goes back to where the file was. */
  lemma TargetOfEntry(fs: Fs, plan: Plan, p: Path)
    requires ProperNames(fs) && FitPlan(plan) && Archived(fs, plan, p)
    ensures Target(EntryFor(fs, plan, p), plan.roots) ==
      if p == RootOf(plan, p) then Nowhere else Somewhere(RootOf(plan, p), Rel(plan, p))
  {
    hide Clean, Archived;
    ArchivedIsProper(fs, plan, p);
    CleanKeeps(p);
    var name := EntryFor(fs, plan, p).name;
    assert name[1..] == Rel(plan, p);
    if p != RootOf(plan, p) {
      assert Rel(plan, p)[0] in p;
    }
  }

  lemma OutsideHasNoTarget(e: Entry, roots: Roots)
    requires Outside(e)
    ensures Target(e, roots).Nowhere?
  {
  }

  lemma FilesAreApart(fs: Fs, plan: Plan, a: Path, b: Path)
    requires Tree(fs) && FitPlan(plan) && Archived(fs, plan, a) && Archived(fs, plan, b)
    ensures !(a < b)
  {
    hide Tree, Spot;
    if a < b {
      RootOfBelow(plan, RootOf(plan, a), b);
      var p, q := Source(fs, plan, a).path, Source(fs, plan, b).path;
      assert p == q[..|p|];
      AboveStoredIsDir(fs, q, p);
    }
  }

  /** While files are restored the roots lead to the same two directories. */
  ghost predicate LeadTo(states: seq<Fs>, es: seq<Entry>, roots: Roots, reals: Roots, n: nat) {
    forall k :: 0 <= k < n && k < |states| && k < |es| && Target(es[k], roots).Somewhere? ==>
      var w := Real(states[k], Target(es[k], roots).root);
      w.Found? && w.path == if Target(es[k], roots).root == roots.site then reals.site else reals.data
  }

  /** Where an archived file goes. */
  function Home(plan: Plan, reals: Roots, p: Path): Path
    requires RootOf(plan, p) <= p
  {
    (if RootOf(plan, p) == plan.roots.site then reals.site else reals.data) + Rel(plan, p)
  }

  lemma SameBeginning(root: Path, a: Path, b: Path)
    requires root + a <= root + b
    ensures a <= b
  {
    assert a == (root + a)[|root|..] && b == (root + b)[|root|..];
  }

  lemma HomesAreApart(fs: Fs, plan: Plan, reals: Roots, a: Path, b: Path)
    requires Tree(fs) && FitPlan(plan) && Apart(reals) && Archived(fs, plan, a) && Archived(fs, plan, b) && a != b
    ensures !(Home(plan, reals, a) <= Home(plan, reals, b))
  {
    hide Tree, Spot;
    var x, y := Home(plan, reals, a), Home(plan, reals, b);
    if x <= y {
      if RootOf(plan, a) == RootOf(plan, b) {
        assert a == RootOf(plan, a) + Rel(plan, a) && b == RootOf(plan, b) + Rel(plan, b);
        SameBeginning(if RootOf(plan, a) == plan.roots.site then reals.site else reals.data, Rel(plan, a), Rel(plan, b));
        FilesAreApart(fs, plan, a, b);
      } else {
        PrefixesCompare(reals.site, reals.data, y);
      }
    }
  }

  /** Where an entry of the archive lands, the compose environment aside. */
  lemma LandsAtHome(fs: Fs, plan: Plan, es: seq<Entry>, src: seq<Path>, off: nat, states: seq<Fs>, reals: Roots, i: nat)
    requires ProperNames(fs) && FitPlan(plan) && Archive(fs, plan, es, src, off)
    requires Trace(states, es, plan.roots) && LeadTo(states, es, plan.roots, reals, i + 1) && i < |states| - 1
    ensures var w := Lands(states[i], es[i], plan.roots);
      w.Found? && !IsEnv(es[i]) ==> off <= i < off + |src| && w.path == Home(plan, reals, src[i - off])
    ensures off <= i < off + |src| ==> !IsEnv(es[i])
    ensures off <= i < off + |src| && src[i - off] != RootOf(plan, src[i - off]) ==>
      Target(es[i], plan.roots).Somewhere? && Lands(states[i], es[i], plan.roots).Found?
  {
    hide Target, EntryFor, Archived, Resolve, Tree, Step, ProperNames;
    if off <= i < off + |src| {
      assert es[i] == es[off..off + |src|][i - off];
      TargetOfEntry(fs, plan, src[i - off]);
    } else {
      OutsideHasNoTarget(es[i], plan.roots);
    }
  }

  /** The compose environment, last in the archive, lands on `p`. */
  predicate EnvOn(states: seq<Fs>, es: seq<Entry>, roots: Roots, p: Path)
    requires 0 < |es| <= |states|
  {
    var w := Real(states[|es| - 1], EnvPath(roots));
    IsEnv(es[|es| - 1]) && w.Found? && w.path == p
  }

  /** In the archive of a tree no entry takes the place of an earlier file, but for a compose environment
      that leads there. */
  lemma {:induction false} EntriesLast(
    fs: Fs, plan: Plan, es: seq<Entry>, src: seq<Path>, off: nat, states: seq<Fs>, reals: Roots, i: nat)
    requires Tree(fs) && ProperNames(fs) && FitPlan(plan) && Archive(fs, plan, es, src, off)
    requires AllStored(states, es, plan.roots) && LeadTo(states, es, plan.roots, reals, |es|) && Apart(reals)
    requires off <= i < off + |src|
    ensures Lasting(states, es, plan.roots, i, |es| - 1)
    ensures Lands(states[i], es[i], plan.roots).Found? ==>
      (Lasting(states, es, plan.roots, i, |es|) <==> !EnvOn(states, es, plan.roots, Lands(states[i], es[i], plan.roots).path))
  {
    hide Target, EntryFor, Archived, Resolve, Tree, Lands, ProperNames, Trace, StoredUpTo, FitPlan, Home;
    LandsAtHome(fs, plan, es, src, off, states, reals, i);
    var w := Lands(states[i], es[i], plan.roots);
    forall j | i < j < |es| && w.Found? && !IsEnv(es[j])
      ensures !Hits(states[j], es[j], plan.roots, w.path)
    {
      LandsAtHome(fs, plan, es, src, off, states, reals, j);
      if Lands(states[j], es[j], plan.roots).Found? {
        HomesAreApart(fs, plan, reals, src[j - off], src[i - off]);
      }
    }
    var m := |es| - 1;
    if IsEnv(es[m]) {
      EnvLands(states[m], es[m], plan.roots);
    }
  }

  lemma EnvLands(fs: Fs, e: Entry, roots: Roots)
    requires IsEnv(e)
    ensures Lands(fs, e, roots) == Real(fs, EnvPath(roots))
  {
    hide Resolve;
    EnvHasNoTarget(e, roots);
  }

  /** What a restore leaves of an archived file: the bytes that were read of it, or those written through
      the path of the compose environment where that leads to it. */
  function Returned(fs: Fs, plan: Plan, p: Path, onEnv: bool, wrote: Option<nat>): Bytes
    requires Archived(fs, plan, p)
    requires onEnv && wrote.Some? ==> EnvEntry(fs, plan).Some? && wrote.value <= |EnvEntry(fs, plan).value.data|
  {
    if onEnv && wrote.Some? then EnvEntry(fs, plan).value.data[..wrote.value]
    else Original(fs, plan, p)[..BytesRead(fs, plan, p)]
  }

  /** The last step of the restore pours the compose environment, if there is one. */
  ghost predicate EndsPouring(states: seq<Fs>, es: seq<Entry>, roots: Roots, wrote: Option<nat>)
    requires 0 < |es| < |states|
  {
    var m := |es| - 1;
    IsEnv(es[m]) ==> Poured(states[m], states[m + 1], Real(states[m], EnvPath(roots)), es[m].data, wrote)
  }

  lemma {:induction false} StandsBeforeEnv(
    fs: Fs, plan: Plan, es: seq<Entry>, src: seq<Path>, off: nat, states: seq<Fs>, reals: Roots, p: Path)
    requires Tree(fs) && ProperNames(fs) && FitPlan(plan) && Archive(fs, plan, es, src, off)
    requires AllStored(states, es, plan.roots) && LeadTo(states, es, plan.roots, reals, |es|) && Apart(reals)
    requires Archived(fs, plan, p) && p != RootOf(plan, p)
    ensures At(states[|es| - 1], Home(plan, reals, p)) == Present(File(Original(fs, plan, p)[..BytesRead(fs, plan, p)]))
  {
    hide Target, Resolve, Tree, Lands, ProperNames, FitPlan, Spot, Rel, BytesRead, Step, Stored;
    var k :| 0 <= k < |src| && src[k] == p;
    var i := off + k;
    assert es[i] == es[off..off + |src|][k];
    LandsAtHome(fs, plan, es, src, off, states, reals, i);
    EntriesLast(fs, plan, es, src, off, states, reals, i);
    StoredEntriesStand(states, es, plan.roots, i, |es| - 1);
  }

  /** A restore that reports success leaves every archived file below what its root leads to then, as it
      was at the time of the backup, whatever the disk held in between. It is the same if and only if all
      its bytes were read, or, where the path of the compose environment leads to it and that could be
      written, if the environment's bytes are its own. */
  lemma {:induction false} RestoreUndoesBackup(
    fs: Fs, plan: Plan, es: seq<Entry>, src: seq<Path>, off: nat, states: seq<Fs>, reals: Roots, wrote: Option<nat>, p: Path)
    requires Tree(fs) && ProperNames(fs) && FitPlan(plan) && Archive(fs, plan, es, src, off)
    requires AllStored(states, es, plan.roots) && LeadTo(states, es, plan.roots, reals, |es|) && Apart(reals)
    requires EndsPouring(states, es, plan.roots, wrote)
    requires Archived(fs, plan, p) && p != RootOf(plan, p)
    ensures var home := Home(plan, reals, p); var onEnv := EnvOn(states, es, plan.roots, home);
      && (onEnv && wrote.Some? ==> EnvEntry(fs, plan).Some? && wrote.value <= |EnvEntry(fs, plan).value.data|)
      && At(states[|es|], home) == Present(File(Returned(fs, plan, p, onEnv, wrote)))
      && (At(states[|es|], home) == AtEnd(fs, Source(fs, plan, p)) <==>
          if onEnv && wrote.Some? then EnvEntry(fs, plan).value.data[..wrote.value] == Original(fs, plan, p)
          else BytesRead(fs, plan, p) == |Original(fs, plan, p)|)
  {
    hide Target, Resolve, Tree, Lands, ProperNames, FitPlan, Spot, Rel, BytesRead, Step, Stored;
    var m, home := |es| - 1, Home(plan, reals, p);
    StandsBeforeEnv(fs, plan, es, src, off, states, reals, p);
    assert Step(states[m], states[m + 1], es[m], plan.roots);
    if !IsEnv(es[m]) {
      LandsAtHome(fs, plan, es, src, off, states, reals, m);
    }
    LastStep(states[m], states[m + 1], es[m], plan.roots, wrote, home);
  }

  /** A step that is no file's leaves a file alone, but for a compose environment that is written to it. */
  lemma LastStep(fs: Fs, fs': Fs, e: Entry, roots: Roots, wrote: Option<nat>, p: Path)
    requires Step(fs, fs', e, roots) && (!IsEnv(e) ==> Lands(fs, e, roots).Lost?)
    requires IsEnv(e) ==> Poured(fs, fs', Real(fs, EnvPath(roots)), e.data, wrote)
    requires IsFile(At(fs, p))
    ensures var w := Real(fs, EnvPath(roots));
      if IsEnv(e) && w.Found? && w.path == p && wrote.Some?
      then wrote.value <= |e.data| && At(fs', p) == Present(File(e.data[..wrote.value]))
      else At(fs', p) == At(fs, p)
  {
    hide Resolve, Lands;
    if IsEnv(e) {
      var w := Real(fs, EnvPath(roots));
      if w.Found? && (w.path != p || wrote.None?) {
        assert Kept(fs, fs', w.path, p);
      }
    }
  }

  /** A file below its root is the one that its path leads to. */
  lemma SourceIsReal(fs: Fs, plan: Plan, p: Path)
    requires Tree(fs) && ProperNames(fs) && FitPlan(plan) && Archived(fs, plan, p) && p != RootOf(plan, p)
    ensures Real(fs, p) == Source(fs, plan, p)
  {
    hide Resolve, Tree, ProperNames;
    var root, rel := RootOf(plan, p), Rel(plan, p);
    ArchivedIsProper(fs, plan, p);
    AboveStoredIsDir(fs, Source(fs, plan, p).path, Spot(fs, root).path);
    assert root != [] && root[|root| - 1] in root;
    RealStep(fs, root);
    WayToNodeBelow(fs, root, rel, |rel|);
    assert rel[..|rel|] == rel && root + rel == p;
  }

  /** The environment of a compose site whose file the walk came to is archived whole, and goes back to
      that file: after a restore without faults it is the same, even if the walk could not read it to
      its end. */
  lemma {:induction false} EnvironmentComesBack(
    fs: Fs, plan: Plan, es: seq<Entry>, src: seq<Path>, off: nat, states: seq<Fs>, reals: Roots)
    requires Tree(fs) && ProperNames(fs) && FitPlan(plan) && Archive(fs, plan, es, src, off)
    requires AllStored(states, es, plan.roots) && LeadTo(states, es, plan.roots, reals, |es|) && Apart(reals)
    requires Archived(fs, plan, EnvPath(plan.roots)) && plan.compose && plan.envRead
    requires var w := Real(states[|es| - 1], plan.roots.data); w.Found? && w.path == reals.data
    requires PouredUpTo(states, es, plan.roots, |es|)
    ensures var p := EnvPath(plan.roots);
      && EnvEntry(fs, plan).Some? && EnvEntry(fs, plan).value.data == Original(fs, plan, p)
      && EnvOn(states, es, plan.roots, Home(plan, reals, p))
      && At(states[|es|], Home(plan, reals, p)) == Present(File(Original(fs, plan, p)))
  {
    hide Target, Resolve, Tree, Lands, ProperNames, Step, Stored, Spot, BytesRead, Barred;
    var p, m := EnvPath(plan.roots), |es| - 1;
    RootOfBelow(plan, plan.roots.data, p);
    SourceIsReal(fs, plan, p);
    var wrote := if Pourable(states[m], p) then Some(|es[m].data|) else None;
    assert PouredWhole(states[m], states[m + 1], es[m], plan.roots);
    StandsBeforeEnv(fs, plan, es, src, off, states, reals, p);
    EnvLeadsHome(states[m], plan.roots, reals);
    RestoreUndoesBackup(fs, plan, es, src, off, states, reals, wrote, p);
    assert es[m].data[..|es[m].data|] == es[m].data;
  }

  /** A file below the data directory that stands at the place of the environment can be written there. */
  lemma EnvLeadsHome(fs: Fs, roots: Roots, reals: Roots)
    requires Tree(fs) && Proper(roots.data)
    requires var w := Real(fs, roots.data); w.Found? && w.path == reals.data
    requires IsFile(At(fs, reals.data + ["compose", ".env"]))
    ensures var w := Real(fs, EnvPath(roots)); w.Found? && w.path == reals.data + ["compose", ".env"]
    ensures Pourable(fs, EnvPath(roots))
  {
    hide Resolve, Tree, Barred;
    var rel := ["compose", ".env"];
    WayToNodeBelow(fs, roots.data, rel, 2);
    assert rel[..2] == rel;
    AboveStoredIsDir(fs, reals.data + rel, Parent(reals.data + rel));
  }

  /** Roots with no symlink at or above them lead to themselves. */
  lemma DirectRootsLeadToThemselves(states: seq<Fs>, es: seq<Entry>, roots: Roots, n: nat)
    requires Trace(states, es, roots) && Apart(roots) && DirectRoots(states[0], es, roots)
    requires n < |states| && EnvsInside(states, es, roots, n)
    ensures LeadTo(states, es, roots, roots, n + 1)
  {
    hide Target, Direct, Resolve, Trace, Apart, EnvInside;
    forall k | 0 <= k < n + 1 && k < |es| && Target(es[k], roots).Somewhere?
      ensures Real(states[k], Target(es[k], roots).root) == Found(Target(es[k], roots).root, MAX_LINKS)
      ensures Target(es[k], roots).root in {roots.site, roots.data}
    {
      TargetIsBelow(es[k], roots);
      RootsStayDirect(states, es, roots, k);
      DirectIsReal(states[k], Target(es[k], roots).root);
    }
  }

  /** Something that is no directory stands above `dest`. */
  ghost predicate Blocked(fs: Fs, dest: Path) {
    exists n :: 0 <= n < |dest| && At(fs, dest[..n]) != Absent && At(fs, dest[..n]) != Present(Dir)
  }

  /** An entry fails only where something that is no directory stands above its place. */
  lemma HinderedIsBlocked(fs: Fs, root: Path, dest: Path)
    requires Tree(fs) && Proper(dest) && dest != [] && Hindered(fs, root, dest)
    ensures Blocked(fs, dest)
  {
    hide Resolve, Tree;
    var dir := Parent(dest);
    if n :| 0 <= n < |dest| && IsLink(At(fs, dest[..n])) {
    } else {
      forall n | 0 <= n < |dest|
        ensures Lstat(fs, dest[..n]) == Stat(fs, dest[..n]) == At(fs, dest[..n])
      {
        DirectPrefix(fs, dest, n);
      }
      SpotOfChild(fs, dest);
      if SymlinkBetween(fs, root, dest) {
        assert false;
      } else if n :| 0 <= n <= |dir| && Lstat(fs, dir[..n]).Present? && Stat(fs, dir[..n]) != Present(Dir) {
        assert dir[..n] == dest[..n];
      } else {
        assert Undermined(fs, dest);
        NotUndermined(fs, dest);
      }
    }
  }

  lemma DirectPrefix(fs: Fs, dest: Path, n: nat)
    requires Proper(dest) && n < |dest| && forall m :: 0 <= m < |dest| ==> !IsLink(At(fs, dest[..m]))
    ensures Lstat(fs, dest[..n]) == Stat(fs, dest[..n]) == At(fs, dest[..n])
  {
    hide Resolve;
    assert forall m :: 0 <= m <= n ==> dest[..n][..m] == dest[..m];
    DirectIsReal(fs, dest[..n]);
    SpotOfDirect(fs, dest[..n]);
  }

  lemma SpotOfChild(fs: Fs, dest: Path)
    requires Proper(dest) && dest != [] && forall m :: 0 <= m < |dest| ==> !IsLink(At(fs, dest[..m]))
    ensures Spot(fs, dest) == Found(dest, MAX_LINKS)
  {
    hide Resolve;
    assert forall m :: 0 <= m < |dest| ==> Parent(dest)[..m] == dest[..m];
    ProperParent(dest);
    DirectIsReal(fs, Parent(dest));
    assert Parent(dest) + [dest[|dest| - 1]] == dest;
  }

  lemma NotUndermined(fs: Fs, dest: Path)
    requires Tree(fs) && Proper(dest) && dest != [] && Spot(fs, dest) == Found(dest, MAX_LINKS)
    requires forall m :: 0 <= m < |dest| ==> !IsLink(At(fs, dest[..m]))
    ensures !Undermined(fs, dest)
  {
    hide Resolve;
    if dest in fs {
      var left := Without(fs, dest);
      assert At(fs, Parent(dest)) == Present(Dir) && At(left, Parent(dest)) == Present(Dir);
      assert forall m :: 0 <= m < |dest| ==> Parent(dest)[..m] == dest[..m];
      ProperParent(dest);
      DirectIsReal(left, Parent(dest));
    }
  }

  /** An archive never stands in its own way: where no symlink stands at or above the roots, only what the
      disk held above a file can keep it out. */
  lemma {:induction false} ArchiveIsObstructedOnlyByTheDisk(
    fs: Fs, plan: Plan, es: seq<Entry>, src: seq<Path>, off: nat, states: seq<Fs>, i: nat)
    requires Tree(fs) && ProperNames(fs) && FitPlan(plan) && Archive(fs, plan, es, src, off)
    requires Trace(states, es, plan.roots) && DirectRoots(states[0], es, plan.roots)
    requires i < |es| && i < |states| && HinderedEntry(states[i], es[i], plan.roots)
    ensures off <= i < off + |src| && Blocked(states[0], src[i - off])
  {
    hide Target, EntryFor, Archived, Resolve, Tree, Lands, ProperNames, DirectRoots, Hindered, Home;
    if !(off <= i < off + |src|) {
      OutsideHasNoTarget(es[i], plan.roots);
    } else {
      var dest := src[i - off];
      assert es[i] == es[off..off + |src|][i - off];
      TargetOfEntry(fs, plan, dest);
      ArchivedIsProper(fs, plan, dest);
      HinderedIsBlocked(states[i], RootOf(plan, dest), dest);
      var n :| 0 <= n < |dest| && At(states[i], dest[..n]) != Absent && At(states[i], dest[..n]) != Present(Dir);
      DirectRootsLeadToThemselves(states, es, plan.roots, i);
      forall k | 0 <= k < i
        ensures !Hits(states[k], es[k], plan.roots, dest[..n])
      {
        LandsAtHome(fs, plan, es, src, off, states, plan.roots, k);
        assert !IsEnv(es[k]);
        if Lands(states[k], es[k], plan.roots).Found? {
          HomeInPlace(fs, plan, src[k - off]);
          FilesAreApart(fs, plan, src[k - off], dest);
        }
      }
      OnlyLandingsChange(states, es, plan.roots, 0, i, dest[..n]);
    }
  }

  lemma HomeInPlace(fs: Fs, plan: Plan, p: Path)
    requires FitPlan(plan) && Archived(fs, plan, p)
    ensures Home(plan, plan.roots, p) == p
  {
  }
}
