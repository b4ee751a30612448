/** Worker scaling (internal/engine/process.go): driving a service's containers to a desired count
    around a template, index 0, that is never removed. Docker is a finite map of containers whose
    calls may fail; two of its failures the code swallows, and a ghost flag remembers each. */
module Replicas {
  import opened Decimals

  const MAX_REPLICAS := 20

  datatype Config = Config(image: string, env: seq<string>, command: string, labels: map<string, string>, network: string)

  datatype Container = Container(config: Config, running: bool)

  type Containers = map<string, Container>

  /** Index 0 keeps the bare name; higher indexes get a suffix. */
  function ServiceName(svc: string, i: nat): string { if i == 0 then svc else svc + "-" + Itoa(i) }

  function ReplicaName(domain: string, svc: string, i: nat): string { "apod-" + domain + "-" + ServiceName(svc, i) }

  /** Replicas of one service never share a name. */
  lemma ReplicaNamesDiffer(domain: string, svc: string, i: nat, j: nat)
    requires i != j
    ensures ReplicaName(domain, svc, i) != ReplicaName(domain, svc, j)
  {
    var stem, si, sj := "apod-" + domain + "-", ServiceName(svc, i), ServiceName(svc, j);
    ItoaValue(i);
    ItoaValue(j);
    assert i > 0 ==> si[|svc| + 1..] == Itoa(i);
    assert j > 0 ==> sj[|svc| + 1..] == Itoa(j);
    assert (stem + si)[|stem|..] == si && (stem + sj)[|stem|..] == sj;
  }

  /** Service `t` is named like replica `i` of service `s`. */
  predicate Imitates(t: string, s: string, i: nat) { i > 0 && t == s + "-" + Itoa(i) }

  /** Where two names split at different dashes, the longer beginning ends in part of the other's rest. */
  lemma Overhang(d: string, a: string, e: string, b: string) returns (x: string)
    requires d + "-" + a == e + "-" + b && |d| < |e|
    ensures e == d + "-" + x && a == x + "-" + b
  {
    var n := d + "-" + a;
    x := e[|d| + 1..];
    assert e == n[..|e|] && d == n[..|d|] && n[|d|] == '-' && n[|e|] == '-';
    assert e == e[..|d|] + [e[|d|]] + x && e[..|d|] == d && e[|d|] == '-';
    assert a == n[|d| + 1..] && b == n[|e| + 1..];
    assert a[..|x|] == x && a[|x|] == '-' && a[|x| + 1..] == b;
  }

  lemma DashWithin(d: string, a: string, e: string, b: string)
    requires d + "-" + a == e + "-" + b && |d| < |e|
    ensures '-' in a
  {
    var x := Overhang(d, a, e, b);
    assert a[|x|] == '-';
  }

  lemma LastDash(s: string, a: string, t: string, b: string)
    requires s + "-" + a == t + "-" + b && '-' !in a && '-' !in b
    ensures s == t && a == b
  {
    if |s| < |t| {
      DashWithin(s, a, t, b);
    } else if |t| < |s| {
      DashWithin(t, b, s, a);
    } else {
      var n := s + "-" + a;
      assert s == n[..|s|] == t && a == n[|s| + 1..] == b;
    }
  }

  /** Replica `i` of service `s` and replica `j` of service `t` go by one name within a site: they are the
      same, or one is a template whose service is named like the other. */
  predicate Alike(s: string, i: nat, t: string, j: nat) {
    (s == t && i == j) || (j == 0 && Imitates(t, s, i)) || (i == 0 && Imitates(s, t, j))
  }

  lemma AlikeIff(s: string, i: nat, t: string, j: nat)
    ensures ServiceName(s, i) == ServiceName(t, j) <==> Alike(s, i, t, j)
  {
    if i > 0 && j > 0 && ServiceName(s, i) == ServiceName(t, j) {
      LastDash(s, Itoa(i), t, Itoa(j));
      ItoaValue(i);
      ItoaValue(j);
    }
  }

  /** And between sites: one domain may also be the other and a part of the service's name. */
  ghost predicate Clash(d: string, s: string, i: nat, e: string, t: string, j: nat) {
    || (d == e && Alike(s, i, t, j))
    || (exists x: string :: e == d + "-" + x && Alike(s, i, x + "-" + t, j))
    || (exists x: string :: d == e + "-" + x && Alike(x + "-" + s, i, t, j))
  }

  lemma PrefixedService(x: string, t: string, j: nat)
    ensures x + "-" + ServiceName(t, j) == ServiceName(x + "-" + t, j)
  {
    assert x + "-" + (t + "") == x + "-" + t + "";
    assert x + "-" + (t + "-" + Itoa(j)) == x + "-" + t + "-" + Itoa(j);
  }

  lemma NamesAgreeIff(d: string, s: string, i: nat, e: string, t: string, j: nat)
    ensures ReplicaName(d, s, i) == ReplicaName(e, t, j) <==> d + "-" + ServiceName(s, i) == e + "-" + ServiceName(t, j)
  {
    hide ServiceName;
    var stem, x, y := "apod-", d + "-" + ServiceName(s, i), e + "-" + ServiceName(t, j);
    assert ReplicaName(d, s, i) == stem + x && ReplicaName(e, t, j) == stem + y;
    assert (stem + x)[|stem|..] == x && (stem + y)[|stem|..] == y;
  }

  lemma LongerDomain(d: string, s: string, i: nat, e: string, t: string, j: nat)
    requires |d| < |e|
    ensures d + "-" + ServiceName(s, i) == e + "-" + ServiceName(t, j)
            <==> exists x: string :: e == d + "-" + x && Alike(s, i, x + "-" + t, j)
  {
    hide ServiceName, Alike;
    if d + "-" + ServiceName(s, i) == e + "-" + ServiceName(t, j) {
      var x := Overhang(d, ServiceName(s, i), e, ServiceName(t, j));
      PrefixedService(x, t, j);
      AlikeIff(s, i, x + "-" + t, j);
    }
    if x: string :| e == d + "-" + x && Alike(s, i, x + "-" + t, j) {
      PrefixedService(x, t, j);
      AlikeIff(s, i, x + "-" + t, j);
      assert d + "-" + (x + "-" + ServiceName(t, j)) == e + "-" + ServiceName(t, j);
    }
  }

  lemma AlikeIsSymmetric(s: string, i: nat, t: string, j: nat)
    ensures Alike(s, i, t, j) <==> Alike(t, j, s, i)
  {
  }

  /** Two replicas on the machine, of one site or of two, share a name if and only if their services are
      named alike, where one site's domain may end in the beginning of the other's service. */
  lemma NamesCollideIff(d: string, s: string, i: nat, e: string, t: string, j: nat)
    ensures ReplicaName(d, s, i) == ReplicaName(e, t, j) <==> Clash(d, s, i, e, t, j)
  {
    hide ReplicaName, ServiceName, Alike;
    NamesAgreeIff(d, s, i, e, t, j);
    AlikeIff(s, i, t, j);
    if |d| < |e| {
      LongerDomain(d, s, i, e, t, j);
    } else if |e| < |d| {
      LongerDomain(e, t, j, d, s, i);
      forall x: string
        ensures Alike(x + "-" + s, i, t, j) <==> Alike(t, j, x + "-" + s, i)
      {
        AlikeIsSymmetric(x + "-" + s, i, t, j);
      }
    } else {
      var x, y := d + "-" + ServiceName(s, i), e + "-" + ServiceName(t, j);
      assert x[..|d|] == d && y[..|e|] == e && x[|d| + 1..] == ServiceName(s, i) && y[|e| + 1..] == ServiceName(t, j);
    }
  }

  /** A dash and what stands before it can belong to the domain or to the service. */
  lemma SitesCanShareNames(d: string, x: string, s: string, i: nat)
    ensures ReplicaName(d, x + "-" + s, i) == ReplicaName(d + "-" + x, s, i)
  {
    assert Alike(x + "-" + s, i, x + "-" + s, i);
    NamesCollideIff(d, x + "-" + s, i, d + "-" + x, s, i);
  }

  lemma NamesAreDistinct(domain: string, svc: string)
    ensures forall i: nat, j: nat :: i != j ==> ReplicaName(domain, svc, i) != ReplicaName(domain, svc, j)
  {
    forall i: nat, j: nat | i != j ensures ReplicaName(domain, svc, i) != ReplicaName(domain, svc, j) {
      ReplicaNamesDiffer(domain, svc, i, j);
    }
  }

  class Docker {
    var containers: Containers
    ghost var misread: bool    // an existence probe failed on a container that exists
    ghost var unstopped: bool  // a stop call failed
    ghost var failed: bool     // a call failed on a container that was there, or a creation in a free place

    constructor (containers: Containers)
      ensures this.containers == containers && !misread && !unstopped && !failed
    {
      this.containers := containers;
      misread, unstopped, failed := false, false, false;
    }

    /** A failed inspection reads as "does not exist". */
    method ContainerExists(name: string) returns (found: bool)
      modifies `misread
      ensures found ==> name in containers
      ensures !found && name in containers ==> misread
      ensures old(misread) ==> misread
    {
      found := name in containers;
      var fails: bool := *;
      if fails {
        misread := misread || found;
        found := false;
      }
    }

    method StartContainer(name: string) returns (ok: bool)
      modifies `containers, `failed
      ensures ok ==> name in old(containers) && containers == old(containers)[name := old(containers)[name].(running := true)]
      ensures !ok ==> containers == old(containers) && (failed || name !in containers)
      ensures old(failed) ==> failed
    {
      ok := *;
      failed := failed || !ok;
      ok := ok && name in containers;
      if ok {
        containers := containers[name := containers[name].(running := true)];
      }
    }

    /** Its callers ignore its error. */
    method StopContainer(name: string)
      requires name in containers
      modifies `containers, `unstopped
      ensures containers == old(containers)[name := old(containers)[name].(running := false)]
              || (containers == old(containers) && unstopped)
      ensures old(unstopped) ==> unstopped
    {
      var ok: bool := *;
      if ok {
        containers := containers[name := containers[name].(running := false)];
      } else {
        unstopped := true;
      }
    }

    method RemoveContainer(name: string) returns (ok: bool)
      modifies `containers, `failed
      ensures ok ==> name in old(containers) && containers == old(containers) - {name}
      ensures !ok ==> containers == old(containers) && (failed || name !in containers)
      ensures old(failed) ==> failed
    {
      ok := *;
      failed := failed || !ok;
      ok := ok && name in containers;
      if ok {
        containers := containers - {name};
      }
    }

    method CreateContainer(name: string, config: Config) returns (ok: bool)
      modifies `containers, `failed
      ensures ok ==> name !in old(containers) && containers == old(containers)[name := Container(config, false)]
      ensures !ok ==> containers == old(containers) && (failed || name in containers)
      ensures old(failed) ==> failed
    {
      ok := *;
      failed := failed || !ok;
      ok := ok && name !in containers;
      if ok {
        containers := containers[name := Container(config, false)];
      }
    }

    method InspectReplica(name: string) returns (ok: bool, config: Config)
      modifies `failed
      ensures ok ==> name in containers && config == containers[name].config
      ensures !ok ==> failed || name !in containers
      ensures old(failed) ==> failed
    {
      ok := *;
      failed := failed || !ok;
      ok := ok && name in containers;
      config := if ok then containers[name].config else Config("", [], "", map[], "");
    }
  }

  /** A replica's container is the template's, under its own label and on the site network only. */
  function ReplicaConfig(template: Config, i: nat, network: string): Config {
    template.(labels := template.labels["apod.replica" := Itoa(i)], network := network)
  }

  /** The role decides what may be scaled, and a stored count comes before the driver's. */
  lemma RolesAndCounts(svc: string, role: string, n: int, k: int)
    ensures EffectiveRole(svc, role) == "worker" <==> role == "worker"
    ensures EffectiveRole("app", "") == "web"
    ensures role != "worker" ==> ResolveReplicas(role, n, Count(k)) == ResolveReplicas(role, n, NoOverride) == 1
    ensures k >= 0 ==> ResolveReplicas("worker", n, Count(k)) == k
    ensures k < 0 ==> ResolveReplicas("worker", n, Count(k)) == 0
    ensures n >= 1 ==> ResolveReplicas("worker", n, NoOverride) == n
    ensures n < 1 ==> ResolveReplicas("worker", n, NoOverride) == 1
  {
  }

  /** Names as they are written. */
  lemma ReplicaNamesAsWritten(d: string, s: string)
    ensures ReplicaName(d, s, 0) == "apod-" + d + "-" + s
    ensures ReplicaName(d, s, 1) == "apod-" + d + "-" + s + "-1"
  {
  }

  // A service as the indexes of its replicas.

  predicate Has(c: Containers, d: string, s: string, i: nat) { ReplicaName(d, s, i) in c }

  ghost predicate Contiguous(c: Containers, d: string, s: string) {
    forall i: nat, j: nat :: i <= j && Has(c, d, s, j) ==> Has(c, d, s, i)
  }

  ghost predicate Foreign(name: string, d: string, s: string) {
    forall i: nat :: name != ReplicaName(d, s, i)
  }

  /** Containers that are not replicas of this service are left alone. */
  ghost predicate OthersSame(c: Containers, c': Containers, d: string, s: string) {
    forall n :: Foreign(n, d, s) ==> (n in c <==> n in c') && (n in c ==> c[n] == c'[n])
  }

  /** Replica `j` of service `t` goes by the name of some replica of service `s`. */
  ghost predicate Among(t: string, j: nat, s: string) {
    t == s || Imitates(s, t, j) || (j == 0 && exists i: nat :: Imitates(t, s, i))
  }

  lemma AmongIff(t: string, j: nat, s: string)
    ensures Among(t, j, s) <==> exists i: nat :: Alike(s, i, t, j)
  {
    if t == s {
      assert Alike(s, j, t, j);
    }
    if Imitates(s, t, j) {
      assert Alike(s, 0, t, j);
    }
    if i: nat :| j == 0 && Imitates(t, s, i) {
      assert Alike(s, i, t, j);
    }
  }

  /** It is in the reach of service `s` of domain `d`. */
  ghost predicate InReach(e: string, t: string, j: nat, d: string, s: string) {
    || (d == e && Among(t, j, s))
    || (exists x: string :: e == d + "-" + x && Among(x + "-" + t, j, s))
    || (exists x: string :: d == e + "-" + x && Among(t, j, x + "-" + s))
  }

  lemma InReachIff(e: string, t: string, j: nat, d: string, s: string)
    ensures InReach(e, t, j, d, s) <==> exists i: nat :: Clash(d, s, i, e, t, j)
  {
    hide Among, Alike;
    AmongIff(t, j, s);
    forall x: string
      ensures Among(x + "-" + t, j, s) <==> exists i: nat :: Alike(s, i, x + "-" + t, j)
      ensures Among(t, j, x + "-" + s) <==> exists i: nat :: Alike(x + "-" + s, i, t, j)
    {
      AmongIff(x + "-" + t, j, s);
      AmongIff(t, j, x + "-" + s);
    }
    if d == e && Among(t, j, s) {
      var i: nat :| Alike(s, i, t, j);
      assert Clash(d, s, i, e, t, j);
    }
    if x: string :| e == d + "-" + x && Among(x + "-" + t, j, s) {
      var i: nat :| Alike(s, i, x + "-" + t, j);
      assert Clash(d, s, i, e, t, j);
    }
    if x: string :| d == e + "-" + x && Among(t, j, x + "-" + s) {
      var i: nat :| Alike(x + "-" + s, i, t, j);
      assert Clash(d, s, i, e, t, j);
    }
  }

  /** A container, of this site or another, is outside a service's reach if and only if its service is
      not named like one of the service's replicas, nor the other way round, with the domains' overhang
      counted as part of the service. */
  lemma ForeignIff(e: string, t: string, j: nat, d: string, s: string)
    ensures Foreign(ReplicaName(e, t, j), d, s) <==> !InReach(e, t, j, d, s)
  {
    hide ReplicaName, InReach, Clash;
    InReachIff(e, t, j, d, s);
    forall i: nat
      ensures ReplicaName(d, s, i) == ReplicaName(e, t, j) <==> Clash(d, s, i, e, t, j)
    {
      NamesCollideIff(d, s, i, e, t, j);
    }
  }

  /** So a container out of reach stays as it is, whichever site it belongs to. */
  lemma UnlikeServicesAreSafe(c: Containers, c': Containers, d: string, s: string, e: string, t: string, j: nat)
    requires OthersSame(c, c', d, s) && !InReach(e, t, j, d, s)
    ensures Has(c, e, t, j) <==> Has(c', e, t, j)
    ensures Has(c, e, t, j) ==> Untouched(c, c', e, t, j)
  {
    ForeignIff(e, t, j, d, s);
  }

  /** Replicas whose names clash are one container: it goes with either. */
  lemma ImitatorSharesItsFate(c: Containers, d: string, s: string, i: nat, e: string, t: string, j: nat)
    requires Clash(d, s, i, e, t, j)
    ensures Has(c, e, t, j) <==> Has(c, d, s, i)
    ensures Has(c, e, t, j) ==> c[ReplicaName(e, t, j)] == c[ReplicaName(d, s, i)]
  {
    NamesCollideIff(d, s, i, e, t, j);
  }

  function Least(desired: int): nat { if desired < 1 then 1 else desired }

  /** Some index from `from` up to but not including `i` is missing. */
  ghost predicate GapBelow(c: Containers, d: string, s: string, from: nat, i: nat) {
    exists j: nat :: from <= j < i && !Has(c, d, s, j)
  }

  datatype Result = Done | NoTemplate | StartFailed(i: nat) | InspectFailed | CreateFailed(i: nat) | RemoveFailed(i: nat)

  /** Replica `i` is the very container it was. */
  ghost predicate Untouched(c: Containers, c': Containers, d: string, s: string, i: nat) {
    Has(c, d, s, i) && Has(c', d, s, i) && c'[ReplicaName(d, s, i)] == c[ReplicaName(d, s, i)]
  }

  /** Stop, then remove. A failed removal leaves the container, perhaps stopped. */
  method RemoveReplica(docker: Docker, name: string) returns (ok: bool)
    requires name in docker.containers
    modifies docker`containers, docker`unstopped, docker`failed
    ensures docker.containers - {name} == old(docker.containers) - {name}
    ensures docker.containers.Keys == old(docker.containers).Keys - if ok then {name} else {}
    ensures old(docker.unstopped) ==> docker.unstopped
    ensures old(docker.failed) || !ok ==> docker.failed
  {
    docker.StopContainer(name);
    ok := docker.RemoveContainer(name);
  }

  /** Delete replicas from index `from` upward, never index 0, up to the first that does not exist. */
  method RemoveExtras(docker: Docker, d: string, s: string, from: nat) returns (r: Result, stop: nat)
    requires from >= 1
    modifies docker
    ensures r == Done || r == RemoveFailed(stop)
    ensures from <= stop && forall i :: from <= i < stop ==> Has(old(docker.containers), d, s, i)
    ensures forall i: nat :: Has(docker.containers, d, s, i) <==> Has(old(docker.containers), d, s, i) && !(from <= i < stop)
    ensures r == Done && !docker.misread ==> !Has(old(docker.containers), d, s, stop)
    ensures r.RemoveFailed? ==> Has(old(docker.containers), d, s, stop)
    ensures forall i: nat :: i < from && Has(old(docker.containers), d, s, i) ==>
              Untouched(old(docker.containers), docker.containers, d, s, i)
    ensures OthersSame(old(docker.containers), docker.containers, d, s)
    ensures old(docker.misread) ==> docker.misread
    ensures old(docker.unstopped) ==> docker.unstopped
    ensures old(docker.failed) || r.RemoveFailed? ==> docker.failed
  {
    NamesAreDistinct(d, s);
    ghost var before := docker.containers;
    stop := from;
    while true
      invariant from <= stop && forall i :: from <= i < stop ==> Has(before, d, s, i)
      invariant forall i: nat :: Has(docker.containers, d, s, i) <==> Has(before, d, s, i) && !(from <= i < stop)
      invariant forall i: nat :: i < from && Has(before, d, s, i) ==> Untouched(before, docker.containers, d, s, i)
      invariant OthersSame(before, docker.containers, d, s)
      invariant old(docker.misread) ==> docker.misread
      invariant old(docker.unstopped) ==> docker.unstopped
      invariant old(docker.failed) ==> docker.failed
      decreases docker.containers.Keys
    {
      var found := docker.ContainerExists(ReplicaName(d, s, stop));
      if !found {
        return Done, stop;
      }
      ghost var c := docker.containers;
      var ok := RemoveReplica(docker, ReplicaName(d, s, stop));
      OnlyOneChanged(c, docker.containers, d, s, stop);
      if !ok {
        return RemoveFailed(stop), stop;
      }
      stop := stop + 1;
    }
  }

  lemma OnlyOneChanged(c: Containers, c': Containers, d: string, s: string, k: nat)
    requires c' - {ReplicaName(d, s, k)} == c - {ReplicaName(d, s, k)}
    ensures forall i: nat :: i != k && Has(c, d, s, i) ==> Untouched(c, c', d, s, i)
    ensures forall i: nat :: i != k ==> (Has(c', d, s, i) <==> Has(c, d, s, i))
    ensures OthersSame(c, c', d, s)
  {
    NamesAreDistinct(d, s);
    var name := ReplicaName(d, s, k);
    assert forall n :: n != name ==> (n in c <==> n in c - {name}) && (n in c' <==> n in c' - {name});
    assert forall n :: n != name && n in c ==> c[n] == (c - {name})[n] == c'[n];
  }

  function ConfigOf(c: Containers, d: string, s: string, i: nat): Config
    requires Has(c, d, s, i)
  {
    c[ReplicaName(d, s, i)].config
  }

  predicate Runs(c: Containers, d: string, s: string, i: nat) {
    Has(c, d, s, i) && c[ReplicaName(d, s, i)].running
  }

  /** The indexes are those of `c` and all of 1..n-1. */
  ghost predicate Grown(c: Containers, c': Containers, d: string, s: string, n: nat) {
    forall i: nat :: Has(c', d, s, i) <==> Has(c, d, s, i) || 1 <= i < n
  }

  /** Old replicas keep their configuration; new ones are copies of the template. */
  ghost predicate Configured(c: Containers, c': Containers, d: string, s: string, template: Config, network: string) {
    forall i: nat :: Has(c', d, s, i) ==>
      ConfigOf(c', d, s, i) == if Has(c, d, s, i) then ConfigOf(c, d, s, i) else ReplicaConfig(template, i, network)
  }

  /** One container is started in place, or created from `config`. */
  method BringUp(docker: Docker, d: string, s: string, i: nat, config: Config) returns (r: Result)
    modifies docker`containers, docker`misread, docker`failed
    ensures r in {Done, CreateFailed(i), StartFailed(i)}
    ensures docker.containers - {ReplicaName(d, s, i)} == old(docker.containers) - {ReplicaName(d, s, i)}
    ensures Has(docker.containers, d, s, i) <==> !(r.CreateFailed? && !Has(old(docker.containers), d, s, i))
    ensures Has(docker.containers, d, s, i) && Has(old(docker.containers), d, s, i) ==>
              ConfigOf(docker.containers, d, s, i) == ConfigOf(old(docker.containers), d, s, i)
    ensures Has(docker.containers, d, s, i) && !Has(old(docker.containers), d, s, i) ==>
              ConfigOf(docker.containers, d, s, i) == config
    ensures r == Done ==> Runs(docker.containers, d, s, i)
    ensures r != Done ==> docker.failed || docker.misread
    ensures old(docker.misread) ==> docker.misread
    ensures old(docker.failed) ==> docker.failed
  {
    var name := ReplicaName(d, s, i);
    var found := docker.ContainerExists(name);
    if !found {
      var created := docker.CreateContainer(name, config);
      if !created {
        return CreateFailed(i);
      }
    }
    var started := docker.StartContainer(name);
    if !started {
      return StartFailed(i);
    }
    return Done;
  }

  lemma OneMoreUp(before: Containers, c: Containers, c': Containers, d: string, s: string, at: nat, template: Config, network: string)
    requires at >= 1 && Grown(before, c, d, s, at) && Configured(before, c, d, s, template, network) && OthersSame(before, c, d, s)
    requires c' - {ReplicaName(d, s, at)} == c - {ReplicaName(d, s, at)}
    requires Has(c, d, s, at) ==> Has(c', d, s, at) && ConfigOf(c', d, s, at) == ConfigOf(c, d, s, at)
    requires Has(c', d, s, at) && !Has(c, d, s, at) ==> ConfigOf(c', d, s, at) == ReplicaConfig(template, at, network)
    ensures Grown(before, c', d, s, if Has(c', d, s, at) then at + 1 else at)
    ensures Has(c, d, s, at) ==> Grown(before, c', d, s, at)
    ensures Configured(before, c', d, s, template, network) && OthersSame(before, c', d, s)
    ensures forall i: nat :: i != at && Runs(c, d, s, i) ==> Runs(c', d, s, i)
  {
    OnlyOneChanged(c, c', d, s, at);
    forall i: nat | i != at && Has(c', d, s, i) ensures ConfigOf(c', d, s, i) == ConfigOf(c, d, s, i) {
      assert Untouched(c, c', d, s, i);
    }
    forall i: nat | i != at && Runs(c, d, s, i) ensures Runs(c', d, s, i) {
      assert Untouched(c, c', d, s, i);
    }
  }

  /** Start or create indexes 1..desired-1, stopping at the first failure. */
  method BringUpTo(docker: Docker, d: string, s: string, desired: int, template: Config, network: string) returns (r: Result, at: nat)
    requires desired >= 1 && Runs(docker.containers, d, s, 0)
    modifies docker`containers, docker`misread, docker`failed
    ensures 1 <= at <= desired && r in {Done, CreateFailed(at), StartFailed(at)}
    ensures Grown(old(docker.containers), docker.containers, d, s, if r.StartFailed? then at + 1 else at)
    ensures Configured(old(docker.containers), docker.containers, d, s, template, network)
    ensures forall i: nat :: i < at ==> Runs(docker.containers, d, s, i)
    ensures r == Done ==> at == desired
    ensures r != Done ==> docker.failed || docker.misread
    ensures OthersSame(old(docker.containers), docker.containers, d, s)
    ensures old(docker.misread) ==> docker.misread
    ensures old(docker.failed) ==> docker.failed
  {
    ghost var before := docker.containers;
    at := 1;
    while at < desired
      invariant 1 <= at <= desired
      invariant Grown(before, docker.containers, d, s, at)
      invariant Configured(before, docker.containers, d, s, template, network)
      invariant forall i: nat :: i < at ==> Runs(docker.containers, d, s, i)
      invariant OthersSame(before, docker.containers, d, s)
      invariant old(docker.misread) ==> docker.misread
      invariant old(docker.failed) ==> docker.failed
    {
      ghost var c := docker.containers;
      r := BringUp(docker, d, s, at, ReplicaConfig(template, at, network));
      OneMoreUp(before, c, docker.containers, d, s, at, template, network);
      if r != Done {
        return;
      }
      at := at + 1;
    }
    r := Done;
  }

  /** The template is started, and read for its configuration. */
  method StartTemplate(docker: Docker, d: string, s: string) returns (r: Result, template: Config)
    requires Has(docker.containers, d, s, 0)
    modifies docker`containers, docker`failed
    ensures r in {Done, StartFailed(0), InspectFailed}
    ensures docker.containers - {ReplicaName(d, s, 0)} == old(docker.containers) - {ReplicaName(d, s, 0)}
    ensures Has(docker.containers, d, s, 0) && ConfigOf(docker.containers, d, s, 0) == ConfigOf(old(docker.containers), d, s, 0)
    ensures r == Done ==> Runs(docker.containers, d, s, 0) && template == ConfigOf(docker.containers, d, s, 0)
    ensures old(docker.failed) || r != Done ==> docker.failed
  {
    var base := ReplicaName(d, s, 0);
    template := Config("", [], "", map[], "");
    var started := docker.StartContainer(base);
    if !started {
      return StartFailed(0), template;
    }
    var inspected;
    inspected, template := docker.InspectReplica(base);
    return if inspected then Done else InspectFailed, template;
  }

  /** The indexes a successful run leaves: 0..desired-1, and whatever stood beyond the first gap at
      or above the desired count, which the removal loop never reaches. */
  ghost predicate Survives(c: Containers, d: string, s: string, desired: int, i: nat) {
    i == 0 || i < desired || (Has(c, d, s, i) && GapBelow(c, d, s, Least(desired), i))
  }

  /** Every replica that had to be created is the template's copy. */
  ghost predicate CopiesOfTemplate(c: Containers, c': Containers, d: string, s: string, desired: int, network: string) {
    && Has(c, d, s, 0)
    && forall i: nat :: i < desired && !Has(c, d, s, i) ==>
         Has(c', d, s, i) && ConfigOf(c', d, s, i) == ReplicaConfig(ConfigOf(c, d, s, 0), i, network)
  }

  /** Scaling to nothing stops the template and keeps it. */
  method Pause(docker: Docker, d: string, s: string) returns (r: Result, stop: nat)
    requires Has(docker.containers, d, s, 0)
    modifies docker
    ensures r == Done || r == RemoveFailed(stop)
    ensures 1 <= stop && forall i :: 1 <= i < stop ==> Has(old(docker.containers), d, s, i)
    ensures forall i: nat :: Has(docker.containers, d, s, i) <==> Has(old(docker.containers), d, s, i) && !(1 <= i < stop)
    ensures r == Done && !docker.misread ==> !Has(old(docker.containers), d, s, stop)
    ensures r.RemoveFailed? ==> Has(old(docker.containers), d, s, stop) && docker.failed
    ensures OthersSame(old(docker.containers), docker.containers, d, s)
    ensures docker.unstopped || !Runs(docker.containers, d, s, 0)
    ensures old(docker.misread) ==> docker.misread
    ensures old(docker.unstopped) ==> docker.unstopped
    ensures old(docker.failed) ==> docker.failed
  {
    ghost var before := docker.containers;
    docker.StopContainer(ReplicaName(d, s, 0));
    ghost var stopped := docker.containers;
    OnlyOneChanged(before, stopped, d, s, 0);
    r, stop := RemoveExtras(docker, d, s, 1);
    assert Untouched(stopped, docker.containers, d, s, 0);
  }

  /** What a copy is, field by field: the template's but for the network and its own label. */
  lemma CopiesAsWritten(c: Containers, c': Containers, d: string, s: string, desired: int, network: string)
    requires CopiesOfTemplate(c, c', d, s, desired, network)
    ensures forall i: nat :: i < desired && !Has(c, d, s, i) ==>
              && Has(c', d, s, i) && Has(c, d, s, 0)
              && var template := c[ReplicaName(d, s, 0)].config;
                var copy := c'[ReplicaName(d, s, i)].config;
                && copy.image == template.image && copy.env == template.env && copy.command == template.command
                && copy.network == network && copy.labels.Keys == template.labels.Keys + {"apod.replica"}
                && copy.labels["apod.replica"] == Itoa(i)
                && forall l :: l in template.labels && l != "apod.replica" ==> copy.labels[l] == template.labels[l]
  {
  }

  method ReconcileService(docker: Docker, d: string, s: string, desired: int, network: string) returns (r: Result)
    modifies docker
    ensures Has(docker.containers, d, s, 0) == old(Has(docker.containers, d, s, 0))
    ensures OthersSame(old(docker.containers), docker.containers, d, s)
    ensures r == NoTemplate ==> docker.containers == old(docker.containers)
    ensures r == NoTemplate ==> docker.misread || !Has(docker.containers, d, s, 0)
    ensures r != Done && r != NoTemplate ==> docker.failed || docker.misread
    // What success means, exactly.
    ensures r == Done && !docker.misread ==>
              forall i: nat :: Has(docker.containers, d, s, i) <==> Survives(old(docker.containers), d, s, desired, i)
    ensures r == Done && desired > 0 ==> forall i: nat :: i < desired ==> Runs(docker.containers, d, s, i)
    ensures r == Done && desired <= 0 && !docker.unstopped ==> !Runs(docker.containers, d, s, 0)
    ensures r == Done ==> CopiesOfTemplate(old(docker.containers), docker.containers, d, s, desired, network)
    ensures r == Done ==> forall i: nat :: i < desired && !Has(old(docker.containers), d, s, i) ==>
              && Has(docker.containers, d, s, i) && Has(old(docker.containers), d, s, 0)
              && var template := old(docker.containers)[ReplicaName(d, s, 0)].config;
                var copy := docker.containers[ReplicaName(d, s, i)].config;
                && copy.image == template.image && copy.env == template.env && copy.command == template.command
                && copy.network == network && copy.labels.Keys == template.labels.Keys + {"apod.replica"}
                && copy.labels["apod.replica"] == Itoa(i)
                && forall l :: l in template.labels && l != "apod.replica" ==> copy.labels[l] == template.labels[l]
    // What a failure leaves.
    ensures r.StartFailed? || r.InspectFailed? || r.CreateFailed? ==>
              exists n: nat :: Grown(old(docker.containers), docker.containers, d, s, n)
    ensures r.RemoveFailed? ==>
              && Has(old(docker.containers), d, s, r.i) && r.i >= Least(desired)
              && forall i: nat :: Has(docker.containers, d, s, i) <==> i == 0 || i < desired || (Has(old(docker.containers), d, s, i) && i >= r.i)
  {
    NamesAreDistinct(d, s);
    ghost var before := docker.containers;
    var base := ReplicaName(d, s, 0);
    var found := docker.ContainerExists(base);
    if !found {
      return NoTemplate;
    }
    var stop;
    if desired <= 0 {
      r, stop := Pause(docker, d, s);
      Removed(before, docker.containers, d, s, desired, stop);
      return;
    }
    var template;
    r, template := StartTemplate(docker, d, s);
    OnlyOneChanged(before, docker.containers, d, s, 0);
    if r != Done {
      assert Grown(before, docker.containers, d, s, 0);
      return;
    }
    var at;
    ghost var ready := docker.containers;
    r, at := BringUpTo(docker, d, s, desired, template, network);
    assert Grown(before, docker.containers, d, s, if r.StartFailed? then at + 1 else at);
    if r != Done {
      return;
    }
    ghost var up := docker.containers;
    r, stop := RemoveExtras(docker, d, s, desired);
    Removed(before, docker.containers, d, s, desired, stop);
    forall i: nat | i < desired
      ensures Untouched(up, docker.containers, d, s, i) && Runs(docker.containers, d, s, i)
    {
      assert Runs(up, d, s, i);
    }
    assert Has(ready, d, s, 0) && ConfigOf(ready, d, s, 0) == ConfigOf(before, d, s, 0) == template;
    if r == Done {
      CopiesAsWritten(before, docker.containers, d, s, desired, network);
    }
  }

  /** Removing the unbroken stretch from the desired count up to `stop` leaves the survivors. */
  lemma Removed(c: Containers, c': Containers, d: string, s: string, desired: int, stop: nat)
    requires stop >= Least(desired) && forall i :: Least(desired) <= i < stop ==> Has(c, d, s, i)
    requires forall i: nat :: Has(c', d, s, i) <==> (i == 0 || i < desired || Has(c, d, s, i)) && !(Least(desired) <= i < stop)
    requires Has(c, d, s, 0)
    ensures !Has(c, d, s, stop) ==> forall i: nat :: Has(c', d, s, i) <==> Survives(c, d, s, desired, i)
    ensures forall i: nat :: Has(c', d, s, i) <==> i == 0 || i < desired || (Has(c, d, s, i) && i >= stop)
  {
  }

  /** A successful run leaves exactly the desired indexes if and only if no old replica stood beyond
      a gap at or above the desired count; from a contiguous set it always does. */
  lemma ExactIffNothingBeyondGap(c: Containers, d: string, s: string, desired: int)
    requires Has(c, d, s, 0)
    ensures (forall i: nat :: Survives(c, d, s, desired, i) <==> i < Least(desired))
            <==> (forall i: nat :: Has(c, d, s, i) && i >= Least(desired) ==> !GapBelow(c, d, s, Least(desired), i))
    ensures Contiguous(c, d, s) ==> forall i: nat :: Survives(c, d, s, desired, i) <==> i < Least(desired)
  {
    if forall i: nat :: Survives(c, d, s, desired, i) <==> i < Least(desired) {
      forall i: nat | Has(c, d, s, i) && i >= Least(desired) ensures !GapBelow(c, d, s, Least(desired), i) {
        assert !Survives(c, d, s, desired, i);
      }
    }
  }

  /** Creations that fail part-way keep a contiguous set contiguous. */
  lemma FailedCreationKeepsContiguity(c: Containers, c': Containers, d: string, s: string, n: nat)
    requires Contiguous(c, d, s) && Has(c, d, s, 0) && Grown(c, c', d, s, n)
    ensures Contiguous(c', d, s)
  {
  }

  /** A removal that fails at index `k` leaves a hole exactly when it was not the first removal. */
  lemma FailedRemovalLeavesHoleIffLater(c: Containers, c': Containers, d: string, s: string, desired: int, k: nat)
    requires Contiguous(c, d, s) && Has(c, d, s, k) && k >= Least(desired)
    requires forall i: nat :: Has(c', d, s, i) <==> i == 0 || i < desired || (Has(c, d, s, i) && i >= k)
    ensures Contiguous(c', d, s) <==> k == Least(desired)
  {
    if k == Least(desired) {
      assert Contiguous(c', d, s);
    } else {
      assert Has(c', d, s, k) && !Has(c', d, s, Least(desired));
    }
  }

  // Desired counts.

  function EffectiveRole(svc: string, role: string): string {
    if role != "" then role else if svc == "app" then "web" else ""
  }

  datatype Override = NoOverride | Count(n: int)

  function ResolveReplicas(role: string, driverReplicas: int, stored: Override): int {
    if role != "worker" then 1
    else match stored
      case Count(n) => if n < 0 then 0 else n
      case NoOverride => if driverReplicas < 1 then 1 else driverReplicas
  }

  datatype Scaled = Scaled | OutOfRange | NotScalable | Failed(why: Result) | NotStored

  class ScalingTable {
    var replicas: map<(string, string), int>

    constructor ()
      ensures replicas == map[]
    {
      replicas := map[];
    }

    function Stored(domain: string, svc: string): Override reads this {
      if (domain, svc) in replicas then Count(replicas[(domain, svc)]) else NoOverride
    }

    /** Reconcile first, then persist: the stored count changes only after the containers match it,
        and from then on it is the service's desired count. */
    method ScaleProcess(docker: Docker, domain: string, svc: string, role: string, count: int, network: string, writable: bool)
      returns (r: Scaled)
      modifies this, docker
      ensures r == OutOfRange <==> !(0 <= count <= MAX_REPLICAS)
      ensures r == NotScalable <==> 0 <= count <= MAX_REPLICAS && EffectiveRole(svc, role) != "worker"
      ensures r in {OutOfRange, NotScalable} ==> docker.containers == old(docker.containers)
      ensures replicas == if r == Scaled then old(replicas)[(domain, svc) := count] else old(replicas)
      ensures r == NotStored ==> !writable
      ensures r.Failed? ==> docker.failed || docker.misread || !Has(docker.containers, domain, svc, 0)
      ensures r == Scaled ==> forall default :: ResolveReplicas(EffectiveRole(svc, role), default, Stored(domain, svc)) == count
      ensures r == Scaled && !docker.misread && old(Contiguous(docker.containers, domain, svc)) ==>
                forall i: nat :: Has(docker.containers, domain, svc, i) <==> i < Least(count)
      ensures r == Scaled && count > 0 ==> forall i: nat :: i < count ==> Runs(docker.containers, domain, svc, i)
      ensures Has(docker.containers, domain, svc, 0) == old(Has(docker.containers, domain, svc, 0))
    {
      if count < 0 || count > MAX_REPLICAS {
        return OutOfRange;
      }
      if EffectiveRole(svc, role) != "worker" {
        return NotScalable;
      }
      ghost var before := docker.containers;
      var done := ReconcileService(docker, domain, svc, count, network);
      if done != Done {
        return Failed(done);
      }
      ExactIffNothingBeyondGap(before, domain, svc, count);
      if !writable {
        return NotStored;
      }
      replicas := replicas[(domain, svc) := count];
      return Scaled;
    }
  }
}
