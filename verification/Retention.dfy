/** Backup rows, their stored objects and retention (internal/db/backups.go, internal/engine/backup.go,
    internal/engine/storage_engine.go). */
module Retention {
  datatype Row = Row(id: nat, site: string, storage: string, path: string, createdAt: int)

  /** `created_at` has one-second resolution; the id decides between rows of one second. */
  predicate Newer(a: Row, b: Row) { a.createdAt > b.createdAt || (a.createdAt == b.createdAt && a.id > b.id) }

  function Group(rows: set<Row>, site: string, storage: string): set<Row> {
    set r | r in rows && r.site == site && r.storage == storage
  }

  /** How many rows of its group are newer. */
  function Rank(rows: set<Row>, r: Row): nat {
    |set s | s in Group(rows, r.site, r.storage) && Newer(s, r)|
  }

  predicate UniqueIds(rows: set<Row>) { forall a, b :: a in rows && b in rows && a.id == b.id ==> a == b }

  predicate NewestFirst(list: seq<Row>) { forall i, j :: 0 <= i < j < |list| ==> Newer(list[i], list[j]) }

  function Elements(list: seq<Row>): set<Row> { set r | r in list }

  /** `list` holds the group's rows beyond the `keep` newest, newest first. */
  ghost predicate Superfluous(rows: set<Row>, site: string, storage: string, keep: int, list: seq<Row>) {
    NewestFirst(list) && forall r :: r in list <==> r in Group(rows, site, storage) && Rank(rows, r) >= keep
  }

  lemma {:induction false} HasNewest(rows: set<Row>) returns (r: Row)
    requires rows != {} && UniqueIds(rows)
    ensures r in rows && forall s :: s in rows ==> s == r || Newer(r, s)
  {
    var x :| x in rows;
    if rows == {x} {
      r := x;
    } else {
      var y := HasNewest(rows - {x});
      r := if Newer(x, y) then x else y;
      assert forall s :: s in rows ==> s == x || s in rows - {x};
    }
  }

  lemma NewerThanAt(list: seq<Row>, k: nat)
    requires NewestFirst(list) && k < |list|
    ensures (set s | s in list && Newer(s, list[k])) == Elements(list[..k])
  {
  }

  lemma {:induction false} AsManyAsListed(list: seq<Row>)
    requires NewestFirst(list)
    ensures |Elements(list)| == |list|
  {
    if list != [] {
      var n := |list| - 1;
      AsManyAsListed(list[..n]);
      assert list == list[..n] + [list[n]];
      assert Elements(list) == Elements(list[..n]) + {list[n]};
    }
  }

  /** In the group sorted newest first, a row's rank is its position. */
  lemma RankIsPosition(rows: set<Row>, site: string, storage: string, list: seq<Row>, k: nat)
    requires NewestFirst(list) && Elements(list) == Group(rows, site, storage) && k < |list|
    ensures Rank(rows, list[k]) == k
  {
    NewerThanAt(list, k);
    AsManyAsListed(list[..k]);
    assert list[k] in Elements(list);
    assert (set s | s in Group(rows, site, storage) && Newer(s, list[k])) == (set s | s in list && Newer(s, list[k]));
  }

  lemma TailIsSuperfluous(rows: set<Row>, site: string, storage: string, keep: int, list: seq<Row>, offset: nat)
    requires NewestFirst(list) && Elements(list) == Group(rows, site, storage)
    requires offset == if keep < 0 then 0 else if keep > |list| then |list| else keep
    ensures Superfluous(rows, site, storage, keep, list[offset..])
  {
    hide Rank, Group;
    var aged := list[offset..];
    forall r | r in Elements(list)
      ensures r in aged <==> Rank(rows, r) >= keep
    {
      var k :| 0 <= k < |list| && list[k] == r;
      RankIsPosition(rows, site, storage, list, k);
      if k >= offset {
        assert r == aged[k - offset];
      } else {
        assert forall j :: 0 <= j < |aged| ==> aged[j] == list[j + offset] && Newer(list[k], list[j + offset]);
      }
    }
    assert forall r :: r in aged ==> r in Elements(list);
  }

  /** `SELECT ... ORDER BY created_at DESC, id DESC LIMIT -1 OFFSET keep`. */
  method OldBackups(rows: set<Row>, site: string, storage: string, keep: int) returns (aged: seq<Row>)
    requires UniqueIds(rows)
    ensures Superfluous(rows, site, storage, keep, aged)
    ensures forall a, b :: a in aged && b in rows && b.site == site && b.storage == storage && b !in aged ==>
              b.createdAt > a.createdAt || (b.createdAt == a.createdAt && b.id > a.id)
    ensures forall a :: a in aged ==> a in rows && a.site == site && a.storage == storage
    ensures var total := |set r | r in rows && r.site == site && r.storage == storage|;
      |aged| == if keep <= 0 then total else if keep < total then total - keep else 0
  {
    var list := NewestFirstOf(rows, site, storage);
    var offset := if keep < 0 then 0 else if keep > |list| then |list| else keep;
    aged := list[offset..];
    TailIsSuperfluous(rows, site, storage, keep, list, offset);
    AsManyAsListed(list);
    hide Newer, Rank, Superfluous, NewestFirst, Group;
    KeptAreLater(rows, site, storage, list, offset);
  }

  /** The query's `ORDER BY`. */
  method NewestFirstOf(rows: set<Row>, site: string, storage: string) returns (list: seq<Row>)
    requires UniqueIds(rows)
    ensures NewestFirst(list) && Elements(list) == Group(rows, site, storage)
  {
    hide Newer;
    var todo := Group(rows, site, storage);
    list := [];
    while todo != {}
      invariant Elements(list) + todo == Group(rows, site, storage) && NewestFirst(list)
      invariant forall a, b :: a in list && b in todo ==> Newer(a, b)
    {
      ghost var newest := HasNewest(todo);
      var r :| r in todo && forall s :: s in todo ==> s == r || Newer(r, s);
      list := list + [r];
      todo := todo - {r};
    }
  }

  lemma KeptAreLater(rows: set<Row>, site: string, storage: string, list: seq<Row>, offset: nat)
    requires NewestFirst(list) && Elements(list) == Group(rows, site, storage) && offset <= |list|
    ensures forall a, b :: a in list[offset..] && b in rows && b.site == site && b.storage == storage && b !in list[offset..] ==>
              b.createdAt > a.createdAt || (b.createdAt == a.createdAt && b.id > a.id)
    ensures forall a :: a in list[offset..] ==> a in rows && a.site == site && a.storage == storage
    ensures (set r | r in rows && r.site == site && r.storage == storage) == Elements(list)
  {
    forall a, b | a in list[offset..] && b in rows && b.site == site && b.storage == storage && b !in list[offset..]
      ensures Newer(b, a)
    {
      assert b in Group(rows, site, storage) && b in Elements(list);
      var i :| 0 <= i < |list| && list[i] == b;
      var j :| 0 <= j < |list| - offset && list[offset..][j] == a;
      assert list == list[..offset] + list[offset..];
      assert b in list[..offset];
    }
    forall a | a in list[offset..]
      ensures a in Group(rows, site, storage)
    {
      assert a in Elements(list);
    }
  }

  /** A row is kept exactly when fewer than `keep` rows of its group are newer; other groups are
      untouched. */
  lemma PrunedByRank(rows: set<Row>, site: string, storage: string, keep: int, aged: seq<Row>, r: Row)
    requires Superfluous(rows, site, storage, keep, aged) && r in rows
    ensures r in rows - Elements(aged) <==> (r.site == site && r.storage == storage ==> Rank(rows, r) < keep)
  {
  }

  // ---- Rows and objects together ----

  type Key = (string, string) // storage and path

  function KeyOf(r: Row): Key { (r.storage, r.path) }

  function Keys(rs: seq<Row>): set<Key> { set r | r in rs :: KeyOf(r) }

  function Paths(rs: seq<Row>): seq<string> { seq(|rs|, i requires 0 <= i < |rs| => rs[i].path) }

  lemma KeysStep(rs: seq<Row>, i: nat)
    requires i < |rs|
    ensures Keys(rs[..i + 1]) == Keys(rs[..i]) + {KeyOf(rs[i])}
  {
  }

  datatype Vault = Vault(rows: set<Row>, nextId: nat, objects: set<Key>)

  predicate Sound(v: Vault) { UniqueIds(v.rows) && forall r :: r in v.rows ==> r.id < v.nextId }

  /** Every row has its object. */
  predicate Backed(v: Vault) { forall r :: r in v.rows ==> KeyOf(r) in v.objects }

  /** No two rows share an object. */
  predicate DistinctKeys(rows: set<Row>) { forall a, b :: a in rows && b in rows && KeyOf(a) == KeyOf(b) ==> a == b }

  /** How each operation may change the vault; a failure of the disk, the database or the network is
      one of the ways. */

  ghost predicate Created(v: Vault, v': Vault, r: Row) {
    && r.id == v.nextId
    && v' == Vault(v.rows + {r}, v.nextId + 1, v.objects + {KeyOf(r)})
  }

  ghost predicate CreateFailed(v: Vault, v': Vault, key: Key) {
    && v'.rows == v.rows && v.nextId <= v'.nextId
    && (v'.objects == v.objects || v'.objects == v.objects + {key})
  }

  /** The rows `aged[..n]` are gone, and of the objects only some of theirs. */
  ghost predicate Pruned(v: Vault, v': Vault, site: string, storage: string, keep: int, aged: seq<Row>, n: nat) {
    && Superfluous(v.rows, site, storage, keep, aged) && n <= |aged|
    && v'.rows == v.rows - Elements(aged[..n]) && v'.nextId == v.nextId
    && v.objects - Keys(aged[..n]) <= v'.objects <= v.objects
  }

  ghost predicate Deleted(v: Vault, v': Vault, r: Row, rowGone: bool, objectGone: bool) {
    && r in v.rows && v'.nextId == v.nextId
    && v'.rows == v.rows - (if rowGone then {r} else {})
    && v'.objects == v.objects - (if objectGone then {KeyOf(r)} else {})
  }

  /** The objects that the site's rows name in the store of local backups. */
  function LocalKeys(rows: set<Row>, site: string): set<Key> {
    set r | r in rows && r.site == site && r.storage == "local" :: KeyOf(r)
  }

  /** The site has a new owner. Local backups are then looked for in the new owner's directory, where
      those in `found` stand, unless the directory is the same. */
  ghost predicate Transferred(v: Vault, v': Vault, site: string, sameDir: bool, found: set<Key>) {
    && v'.rows == v.rows && v'.nextId == v.nextId
    && v'.objects == (if sameDir then v.objects else v.objects - LocalKeys(v.rows, site) + found)
    && found <= LocalKeys(v.rows, site)
  }

  class Backups {
    var rows: set<Row>
    var nextId: nat
    var objects: set<Key>
    ghost var faulty: bool // some call to the database or the store has failed

    function State(): Vault
      reads this
    {
      Vault(rows, nextId, objects)
    }

    constructor ()
      ensures State() == Vault({}, 1, {}) && !faulty
    {
      rows, nextId, objects, faulty := {}, 1, {}, false;
    }

    /** Upload first, record after. `path` carries the second at which the backup started, and
        `createdAt` is the database's own clock at the insertion. */
    method CreateBackup(site: string, storageName: string, path: string, createdAt: int) returns (id: nat, ok: bool)
      requires Sound(State())
      modifies this
      ensures Sound(State())
      ensures ok ==> Created(old(State()), State(), Row(id, site, if storageName == "" then "local" else storageName, path, createdAt))
      ensures var storage := if storageName == "" then "local" else storageName;
        && rows == old(rows) + (if ok then {Row(id, site, storage, path, createdAt)} else {})
        && old(objects) <= objects <= old(objects) + {(storage, path)} && (ok ==> (storage, path) in objects)
      ensures !ok ==> CreateFailed(old(State()), State(), (if storageName == "" then "local" else storageName, path))
      ensures old(faulty) || !ok ==> faulty
      ensures !faulty ==> ok
    {
      var storage := if storageName == "" then "local" else storageName;
      var uploaded: bool, recorded: bool, partial: bool := *, *, *;
      faulty := faulty || !uploaded || !recorded;
      if !uploaded {
        if partial {
          objects := objects + {(storage, path)};
        }
        return 0, false;
      }
      objects := objects + {(storage, path)};
      if !recorded {
        return 0, false;
      }
      id := nextId;
      rows := rows + {Row(id, site, storage, path, createdAt)};
      nextId := nextId + 1;
      return id, true;
    }

    /** The paths returned are exactly those of the rows deleted, newest of the superfluous first. */
    method DeleteOldestBackups(site: string, storage: string, keep: int) returns (paths: seq<string>, ok: bool, ghost aged: seq<Row>)
      requires Sound(State())
      modifies this`rows, this`faulty
      ensures Superfluous(old(rows), site, storage, keep, aged) && |paths| <= |aged|
      ensures rows == old(rows) - Elements(aged[..|paths|]) && paths == Paths(aged[..|paths|])
      ensures ok ==> |paths| == |aged|
      ensures faulty <==> old(faulty) || !ok
      ensures Sound(State())
    {
      var list := OldBackups(rows, site, storage, keep);
      aged := list;
      paths := [];
      var cursor: bool := *;
      if !cursor {
        faulty := true;
        return paths, false, aged;
      }
      for i := 0 to |list|
        invariant |paths| == i && paths == Paths(list[..i])
        invariant rows == old(rows) - Elements(list[..i]) && faulty == old(faulty)
      {
        var failed: bool := *;
        if failed {
          faulty := true;
          return paths, false, aged;
        }
        assert list[..i + 1] == list[..i] + [list[i]];
        rows := rows - {list[i]};
        paths := paths + [list[i].path];
      }
      assert list[..|list|] == list;
      return paths, true, aged;
    }

    method PruneOldBackups(site: string, storage: string, keep: int) returns (count: nat, ok: bool, ghost aged: seq<Row>)
      requires Sound(State())
      modifies this
      ensures Pruned(old(State()), State(), site, storage, keep, aged, count) && Sound(State())
      ensures ok ==> count == |aged|
      ensures count <= |aged| && forall r :: r in rows <==> r in old(rows) && r !in aged[..count]
      ensures forall k :: k in old(objects) && k !in objects ==> exists r :: r in aged && k == (r.storage, r.path)
      ensures old(faulty) || !ok ==> faulty
      ensures !faulty ==> ok && objects == old(objects) - Keys(aged)
    {
      var paths, rowsOk, list := DeleteOldestBackups(site, storage, keep);
      aged := list;
      if |paths| == 0 {
        assert Elements(list[..0]) == {} && Keys(list[..0]) == {};
        return 0, rowsOk, aged;
      }
      var storeOpens: bool := *;
      if !storeOpens {
        faulty := true;
        return |paths|, false, aged;
      }
      forall i | 0 <= i < |paths|
        ensures (storage, paths[i]) in Keys(list[..|paths|])
      {
        assert list[..|paths|][i] in list;
        assert KeyOf(list[..|paths|][i]) == (storage, paths[i]);
      }
      for i := 0 to |paths|
        invariant rows == old(rows) - Elements(list[..|paths|]) && nextId == old(nextId)
        invariant old(objects) - Keys(list[..|paths|]) <= objects <= old(objects)
        invariant old(faulty) || !rowsOk ==> faulty
        invariant !faulty ==> objects == old(objects) - Keys(list[..i])
      {
        var failed: bool := *;
        faulty := faulty || failed;
        if !failed {
          objects := objects - {(storage, paths[i])};
        }
        KeysStep(list, i);
        assert list[..|paths|][i] == list[i] && list[i] in list;
        assert KeyOf(list[i]) == (storage, paths[i]);
      }
      return |paths|, rowsOk, aged;
    }

    /** The object goes first, and its failure is ignored. From a vault whose rows all have an object
        of their own, some row is left without if and only if the object went and the row stayed. */
    method DeleteBackup(site: string, id: nat) returns (ok: bool, ghost objectGone: bool)
      requires Sound(State())
      modifies this
      ensures State() == old(State()) || exists r: Row :: r.id == id && r.site == site && Deleted(old(State()), State(), r, ok, objectGone)
      ensures ok ==> exists r: Row :: r.id == id && r.site == site && Deleted(old(State()), State(), r, ok, objectGone)
      ensures old(Backed(State()) && DistinctKeys(rows)) ==> (Backed(State()) <==> ok || objects == old(objects))
      ensures !faulty && !ok ==> State() == old(State()) && forall r :: r in rows && r.id == id ==> r.site != site
      ensures !faulty && ok ==> objectGone
      ensures rows <= old(rows) && objects <= old(objects) && (!ok ==> rows == old(rows))
      ensures ok ==> forall r :: r in old(rows) ==> (r in rows <==> r.id != id)
      ensures forall k :: k in old(objects) && k !in objects ==> exists r :: r in old(rows) && r.id == id && k == (r.storage, r.path)
      ensures old(faulty) ==> faulty
      ensures Sound(State())
    {
      objectGone := false;
      if r :| r in rows && r.id == id {
        var storeOpens: bool, freed: bool, rowGone: bool := *, *, *;
        if r.site != site {
          return false, objectGone;
        }
        faulty := faulty || !storeOpens || !freed || !rowGone;
        if !storeOpens {
          return false, objectGone;
        }
        if freed {
          objects := objects - {KeyOf(r)};
          objectGone := true;
        }
        if rowGone {
          rows := rows - {r};
        }
        assert Deleted(old(State()), State(), r, rowGone, objectGone);
        DeletionKeepsObjectsIff(old(State()), State(), r, rowGone, objectGone);
        return rowGone, objectGone;
      }
      return false, objectGone;
    }
  }

  /** A deletion leaves every row its object if and only if it does not free the object of a row it
      fails to delete. */
  lemma DeletionKeepsObjectsIff(v: Vault, v': Vault, r: Row, rowGone: bool, objectGone: bool)
    requires Deleted(v, v', r, rowGone, objectGone)
    ensures Backed(v) && DistinctKeys(v.rows) ==> (Backed(v') <==> rowGone || !objectGone)
  {
  }

  /** The clamp of a backup schedule: at least the backup just taken is kept. */
  function KeepCount(requested: int): (keep: int)
    ensures keep >= 1 && (requested >= 1 ==> keep == requested)
  {
    if requested < 1 then 1 else requested
  }

  /** Retention with `keep` at least one never takes the newest row of a group. */
  lemma NewestIsNeverPruned(v: Vault, v': Vault, site: string, storage: string, keep: int, aged: seq<Row>, n: nat, r: Row)
    requires Pruned(v, v', site, storage, keep, aged, n) && keep >= 1
    requires r in v.rows && forall s :: s in Group(v.rows, r.site, r.storage) ==> s == r || Newer(r, s)
    ensures r in v'.rows
  {
    assert (set s | s in Group(v.rows, r.site, r.storage) && Newer(s, r)) == {};
    assert forall x :: x in aged[..n] ==> x in aged;
  }

  /** The rows that `keep` retains. */
  predicate Kept(rows: set<Row>, site: string, storage: string, keep: int, r: Row) {
    r in rows && (r.site != site || r.storage != storage || Rank(rows, r) < keep)
  }

  /** A pruning that runs to its end and frees every object it should leaves each row its object if and
      only if beforehand no row to be kept shared its object with one to be pruned. */
  lemma PruneKeepsObjectsIffNoneIsShared(v: Vault, v': Vault, site: string, storage: string, keep: int, aged: seq<Row>)
    requires Backed(v) && Pruned(v, v', site, storage, keep, aged, |aged|)
    requires v'.objects == v.objects - Keys(aged)
    ensures Backed(v') <==>
              forall r, s :: Kept(v.rows, site, storage, keep, r) && s in v.rows && !Kept(v.rows, site, storage, keep, s) ==>
                KeyOf(r) != KeyOf(s)
  {
    hide Rank;
    assert aged[..|aged|] == aged;
    assert forall s :: s in aged <==> s in v.rows && !Kept(v.rows, site, storage, keep, s);
    assert forall s :: s in aged ==> KeyOf(s) in Keys(aged);
    assert forall r :: r in v'.rows <==> Kept(v.rows, site, storage, keep, r);
  }

  // ---- Whole runs ----

  datatype Step =
    | Create(row: Row)
    | Fail(key: Key)
    | Prune(site: string, storage: string, keep: int, aged: seq<Row>, n: nat)
    | Delete(row: Row, rowGone: bool, objectGone: bool)
    | Transfer(site: string, sameDir: bool, found: set<Key>)

  ghost predicate Takes(v: Vault, s: Step, v': Vault) {
    match s
    case Create(r) => Created(v, v', r)
    case Fail(key) => CreateFailed(v, v', key)
    case Prune(site, storage, keep, aged, n) => Pruned(v, v', site, storage, keep, aged, n)
    case Delete(r, rowGone, objectGone) => Deleted(v, v', r, rowGone, objectGone)
    case Transfer(site, sameDir, found) => Transferred(v, v', site, sameDir, found)
  }

  /** A new backup's path is its own, a deletion that frees the object also deletes the row, and a transfer
      leads to the same directory or to one that holds every local backup of the site. */
  predicate Fair(v: Vault, s: Step) {
    match s
    case Create(row) => forall r :: r in v.rows ==> KeyOf(r) != KeyOf(row)
    case Delete(_, rowGone, objectGone) => rowGone || !objectGone
    case Transfer(site, sameDir, found) => sameDir || found == LocalKeys(v.rows, site)
    case _ => true
  }

  ghost predicate Run(vs: seq<Vault>, steps: seq<Step>) {
    && |vs| == |steps| + 1 && vs[0] == Vault({}, 1, {})
    && forall i :: 0 <= i < |steps| ==> Takes(vs[i], steps[i], vs[i + 1]) && Fair(vs[i], steps[i])
  }

  lemma PrunedOnlyTheirs(v: Vault, v': Vault, site: string, storage: string, keep: int, aged: seq<Row>, n: nat)
    requires Pruned(v, v', site, storage, keep, aged, n) && DistinctKeys(v.rows)
    ensures forall r :: r in v'.rows ==> KeyOf(r) !in Keys(aged[..n])
  {
    hide Rank;
    forall r, s | r in v'.rows && s in aged[..n]
      ensures KeyOf(r) != KeyOf(s)
    {
      assert s in aged && s in Elements(aged[..n]);
      assert s in Group(v.rows, site, storage);
    }
  }

  /** A transfer leaves every row its object if and only if the directory stays the same or holds every
      local backup of the site: a directory without them, if none of its backups is local. */
  lemma TransferKeepsObjectsIff(v: Vault, v': Vault, site: string, sameDir: bool, found: set<Key>)
    requires Transferred(v, v', site, sameDir, found) && Backed(v) && DistinctKeys(v.rows)
    ensures Backed(v') <==> sameDir || found == LocalKeys(v.rows, site)
    ensures found == {} ==> (Backed(v') <==> sameDir || forall r :: r in v.rows && r.site == site ==> r.storage != "local")
  {
    forall r | r in v.rows
      ensures KeyOf(r) in LocalKeys(v.rows, site) <==> r.site == site && r.storage == "local"
    {
    }
    if !sameDir && Backed(v') {
      forall k | k in LocalKeys(v.rows, site)
        ensures k in found
      {
        var r :| r in v.rows && r.site == site && r.storage == "local" && KeyOf(r) == k;
      }
    }
    if r :| r in v.rows && r.site == site && r.storage == "local" {
      assert KeyOf(r) in LocalKeys(v.rows, site);
    }
  }

  /** A step keeps every row with an object of its own if and only if it is fair. */
  lemma StepKeepsObjectsIffFair(v: Vault, s: Step, v': Vault)
    requires Takes(v, s, v') && Sound(v) && Backed(v) && DistinctKeys(v.rows)
    ensures Sound(v') && (Backed(v') && DistinctKeys(v'.rows) <==> Fair(v, s))
  {
    match s
    case Create(r) => assert r !in v.rows && r in v'.rows;
    case Fail(key) =>
    case Prune(site, storage, keep, aged, n) => PrunedOnlyTheirs(v, v', site, storage, keep, aged, n);
    case Delete(r, rowGone, objectGone) => DeletionKeepsObjectsIff(v, v', r, rowGone, objectGone);
    case Transfer(site, sameDir, found) => TransferKeepsObjectsIff(v, v', site, sameDir, found);
  }

  /** Over every run of fair creations, failed or not, of prunings, however far they get, and of fair
      deletions and transfers, every row has its object: what is listed can be restored. */
  lemma {:induction false} EveryRowHasItsObject(vs: seq<Vault>, steps: seq<Step>, i: nat)
    requires Run(vs, steps) && i < |vs|
    ensures Sound(vs[i]) && Backed(vs[i]) && DistinctKeys(vs[i].rows)
  {
    if i > 0 {
      EveryRowHasItsObject(vs, steps, i - 1);
      StepKeepsObjectsIffFair(vs[i - 1], steps[i - 1], vs[i]);
    }
  }

  /** Two backups within one second carry one key; keeping the newer leaves its row without object. */
  lemma SameSecondLosesTheNewest(site: string, path: string, at: int) returns (vs: seq<Vault>, aged: seq<Row>)
    ensures |vs| == 4 && vs[0] == Vault({}, 1, {})
    ensures Created(vs[0], vs[1], Row(1, site, "local", path, at)) && Created(vs[1], vs[2], Row(2, site, "local", path, at))
    ensures Pruned(vs[2], vs[3], site, "local", 1, aged, 1) && vs[3].objects == vs[2].objects - Keys(aged[..1])
    ensures vs[3].rows == {Row(2, site, "local", path, at)} && vs[3].objects == {}
  {
    var a, b := Row(1, site, "local", path, at), Row(2, site, "local", path, at);
    var key := KeyOf(a);
    vs := [Vault({}, 1, {}), Vault({a}, 2, {key}), Vault({a, b}, 3, {key}), Vault({b}, 3, {})];
    aged := [a];
    assert aged[..1] == aged;
    RankIsPosition({a, b}, site, "local", [b, a], 0);
    RankIsPosition({a, b}, site, "local", [b, a], 1);
    assert [b, a][0] == b && [b, a][1] == a;
    assert Keys(aged) == {key};
  }
}
