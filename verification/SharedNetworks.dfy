/** Shared networks and site ownership (internal/engine/networks.go, internal/db/networks.go,
    internal/engine/user.go, internal/engine/engine.go): a shared network only ever joins sites of its
    own owner.

    Every operation is one step. Those that hold no lock, on networks and memberships and the transfer,
    are also the steps they are made of. Every database or Docker call may fail; the step functions take the outcome of each call
    whose failure the code passes over. */
module SharedNetworks {
  datatype Site = Site(owner: string, status: string)

  type Link = (string, string) // network and domain

  datatype State = State(sites: map<string, Site>, networks: map<string, string>, members: set<Link>, attached: set<Link>)

  function Id(domain: string): string { seq(|domain|, i requires 0 <= i < |domain| => if domain[i] == '.' then '-' else domain[i]) }

  /** The member is an existing site with the network's owner. */
  predicate Authorized(s: State, l: Link) {
    l.0 in s.networks && l.1 in s.sites && s.sites[l.1].owner == s.networks[l.0]
  }

  predicate SameOwner(s: State) { forall l :: l in s.members ==> Authorized(s, l) }

  /** Containers are attached only where their site is a member. */
  predicate Wired(s: State) { s.attached <= s.members }

  predicate MemberOfNone(s: State, domain: string) { forall l :: l in s.members ==> l.1 != domain }

  function OfSite(ls: set<Link>, domain: string): set<Link> { set l | l in ls && l.1 == domain }

  function OfNetwork(ls: set<Link>, name: string): set<Link> { set l | l in ls && l.0 == name }

  // ---- The steps ----

  /** A new network, unless it exists; a bridge that cannot be made takes the record back. */
  function NetworkCreated(s: State, name: string, owner: string, recorded: bool, bridged: bool, undone: bool): State {
    if name in s.networks || !recorded then s
    else if !bridged && undone then s.(members := s.members - OfNetwork(s.members, name))
    else s.(networks := s.networks[name := owner])
  }

  function NetworkDeleted(s: State, name: string, deleted: bool, stuck: set<Link>): State {
    if name !in s.networks then s
    else
      var cut := s.(attached := s.attached - (OfNetwork(s.members, name) - stuck));
      if deleted then cut.(networks := s.networks - {name}, members := s.members - OfNetwork(s.members, name)) else cut
  }

  function Joined(s: State, name: string, domain: string, added: bool, connected: bool): State {
    if name !in s.networks || domain !in s.sites || s.sites[domain].owner != s.networks[name] || !added then s
    else s.(members := s.members + {(name, domain)}, attached := if connected then s.attached + {(name, domain)} else s.attached)
  }

  /** The halves of a join that has passed its check, now or earlier. */
  function Inserted(s: State, l: Link): State { s.(members := s.members + {l}) }

  function Connected(s: State, l: Link): State { s.(attached := s.attached + {l}) }

  /** The records of a deletion, after members were disconnected or as a creation is taken back. */
  function Dropped(s: State, name: string): State {
    s.(networks := s.networks - {name}, members := s.members - OfNetwork(s.members, name))
  }

  function Left(s: State, name: string, domain: string, removed: bool, stuck: set<Link>): State {
    if !removed then s
    else s.(members := s.members - {(name, domain)}, attached := s.attached - ({(name, domain)} - stuck))
  }

  /** Another site has the same internal identifier. */
  predicate Collides(s: State, domain: string) { exists d :: d in s.sites && d != domain && Id(d) == Id(domain) }

  /** The record of a failed creation by the same owner. */
  predicate Reclaimable(s: State, domain: string, owner: string) {
    domain in s.sites && s.sites[domain].status in {"creating", "error"} && s.sites[domain].owner == owner
  }

  /** The first half of a creation: a new record, or the same owner's failed one reclaimed. */
  function SiteBegun(s: State, domain: string, owner: string, listed: bool, deleted: bool, inserted: bool): State {
    if listed && Collides(s, domain) then s
    else if domain !in s.sites then if inserted then s.(sites := s.sites[domain := Site(owner, "creating")]) else s
    else if !Reclaimable(s, domain, owner) || !deleted then s
    else if inserted then s.(sites := s.sites[domain := Site(owner, "creating")])
    else s.(sites := s.sites - {domain})
  }

  function StatusSet(s: State, domain: string, status: string): State {
    if domain in s.sites then s.(sites := s.sites[domain := s.sites[domain].(status := status)]) else s
  }

  /** A failed creation: containers, memberships, then the record. Containers that cannot be removed
      stay where they are, on the links in `stuck`. */
  function RolledBack(s: State, domain: string, stuck: set<Link>, cleared: bool, deleted: bool): State {
    var s1 := s.(attached := s.attached - (OfSite(s.attached, domain) - stuck));
    var s2 := if cleared then s1.(members := s.members - OfSite(s.members, domain)) else s1;
    if deleted then s2.(sites := s.sites - {domain}) else s2
  }

  /** Containers, as far as they can be removed, then the record, then the memberships. */
  function Destroyed(s: State, domain: string, stuck: set<Link>, deleted: bool, cleared: bool): State {
    var s1 := s.(attached := s.attached - (OfSite(s.attached, domain) - stuck));
    if domain in s.sites && !deleted then s1
    else
      var s2 := s1.(sites := s.sites - {domain});
      if cleared then s2.(members := s.members - OfSite(s.members, domain)) else s2
  }

  /** Containers made or started anew are attached again, where they run and Docker lets them. */
  function Reconnected(s: State, domain: string, rejoined: set<Link>): State {
    s.(attached := s.attached + OfSite(s.members, domain) * rejoined)
  }

  function LeftAll(s: State, domain: string, listed: bool, cleared: bool, stuck: set<Link>): State {
    if !listed then s
    else
      s.(attached := s.attached - (OfSite(s.members, domain) - stuck),
         members := if cleared then s.members - OfSite(s.members, domain) else s.members)
  }

  function OwnerSet(s: State, domain: string, owner: string, updated: bool): State {
    if domain in s.sites && updated then s.(sites := s.sites[domain := s.sites[domain].(owner := owner)]) else s
  }

  function Transferred(s: State, domain: string, owner: string, listed: bool, cleared: bool, stuck: set<Link>, updated: bool): State {
    if domain !in s.sites then s
    else OwnerSet(if owner != s.sites[domain].owner then LeftAll(s, domain, listed, cleared, stuck) else s, domain, owner, updated)
  }

  /** Two domains share an identifier if and only if they differ at most in dots against dashes. */
  lemma SameIdIff(a: string, b: string)
    ensures Id(a) == Id(b) <==>
      |a| == |b| && forall i :: 0 <= i < |a| ==> a[i] == b[i] || (a[i] in {'.', '-'} && b[i] in {'.', '-'})
  {
    assert |Id(a)| == |a| && |Id(b)| == |b|;
    if |a| == |b| {
      forall i | 0 <= i < |a|
        ensures Id(a)[i] == Id(b)[i] <==> a[i] == b[i] || (a[i] in {'.', '-'} && b[i] in {'.', '-'})
      {
      }
      assert Id(a) == Id(b) <==> forall i :: 0 <= i < |a| ==> Id(a)[i] == Id(b)[i];
    }
  }

  /** A new site, a rollback and a destruction whose calls all succeed, as they leave the records. */
  lemma SitesComeAndGo(s: State, domain: string, owner: string)
    ensures domain !in s.sites && (forall d :: d in s.sites ==> Id(d) != Id(domain)) ==>
      SiteBegun(s, domain, owner, true, true, true) == State(s.sites[domain := Site(owner, "creating")], s.networks, s.members, s.attached)
    ensures domain !in s.sites && (exists d :: d in s.sites && Id(d) == Id(domain)) ==>
      SiteBegun(s, domain, owner, true, true, true) == s
    ensures domain in s.sites && (s.sites[domain].owner != owner || s.sites[domain].status !in {"creating", "error"}) ==>
      SiteBegun(s, domain, owner, true, true, true) == s
    ensures Gone(s, RolledBack(s, domain, {}, true, true), domain) && Gone(s, Destroyed(s, domain, {}, true, true), domain)
    ensures domain in s.sites ==> StatusSet(s, domain, "running").sites == s.sites[domain := Site(s.sites[domain].owner, "running")]
  {
  }

  /** Nothing is left of the site, and everything of the others. */
  ghost predicate Gone(s: State, s': State, domain: string) {
    && s'.sites == s.sites - {domain} && s'.networks == s.networks
    && (forall l: Link :: l in s'.members <==> l in s.members && l.1 != domain)
    && forall l: Link :: l in s'.attached <==> l in s.attached && l.1 != domain
  }

  /** Names of 1 to 64 letters, digits, dashes and underscores, the first a letter or digit. */
  lemma ValidNames(c: char, rest: string)
    ensures ValidName([c] + rest) <==>
      && ('a' <= c <= 'z' || '0' <= c <= '9') && |rest| < 64
      && forall x :: x in rest ==> 'a' <= x <= 'z' || '0' <= x <= '9' || x == '_' || x == '-'
    ensures !ValidName("")
  {
    assert ([c] + rest)[1..] == rest;
  }

  // ---- The engine ----

  datatype Outcome = Done | Invalid | NotFound | Forbidden | Conflict | Failed

  predicate ValidName(name: string) {
    && 1 <= |name| <= 64 && Alphanumeric(name[0])
    && forall c :: c in name[1..] ==> Alphanumeric(c) || c == '_' || c == '-'
  }

  predicate Alphanumeric(c: char) { 'a' <= c <= 'z' || '0' <= c <= '9' }

  class Engine {
    var sites: map<string, Site>
    var networks: map<string, string>
    var members: set<Link>
    var attached: set<Link>
    ghost var faulty: bool // some call to the database or to Docker has failed

    function Now(): State
      reads this
    {
      State(sites, networks, members, attached)
    }

    method CreateSharedNetwork(name: string, owner: string)
      returns (outcome: Outcome, ghost recorded: bool, ghost bridged: bool, ghost undone: bool)
      modifies this
      ensures outcome.Invalid? <==> !ValidName(name)
      ensures !ValidName(name) ==> Now() == old(Now())
      ensures ValidName(name) ==> Now() == NetworkCreated(old(Now()), name, owner, recorded, bridged, undone)
      ensures outcome.Done? <==> ValidName(name) && name !in old(networks) && recorded && bridged
      ensures outcome.Conflict? ==> name in old(networks)
      ensures outcome.Done? ==> networks == old(networks)[name := owner]
      ensures outcome in {Invalid, Conflict} ==> networks == old(networks)
      ensures sites == old(sites) && attached == old(attached)
      ensures outcome.Done? ==> members == old(members) && name != "" && |name| <= 64
      ensures outcome.Failed? ==> faulty
      ensures old(faulty) ==> faulty
    {
      recorded, bridged, undone := false, false, false;
      if !ValidName(name) {
        return Invalid, recorded, bridged, undone;
      }
      var seen: bool, inserts: bool, made: bool, reverts: bool := *, *, *, *;
      if name in networks && seen {
        return Conflict, recorded, bridged, undone;
      }
      if name in networks || !inserts {
        faulty := true;
        return Failed, recorded, bridged, undone;
      }
      networks := networks[name := owner];
      recorded := true;
      if !made {
        faulty := true;
        if reverts {
          members := members - OfNetwork(members, name);
          networks := networks - {name};
          undone := true;
          assert networks == old(networks);
        }
        return Failed, recorded, bridged, undone;
      }
      bridged := true;
      return Done, recorded, bridged, undone;
    }

    method DeleteSharedNetwork(name: string) returns (outcome: Outcome, ghost deleted: bool, ghost stuck: set<Link>)
      modifies this
      ensures outcome.Failed? || Now() == NetworkDeleted(old(Now()), name, deleted, stuck)
      ensures outcome.Failed? ==> Now() == old(Now()) || Now() == NetworkDeleted(old(Now()), name, false, stuck)
      ensures outcome.NotFound? ==> name !in old(networks)
      ensures outcome.Done? ==> deleted && name !in networks
      ensures outcome.Done? ==> networks == old(networks) - {name} && sites == old(sites)
      ensures outcome.Done? ==> forall l: Link :: l in members <==> l in old(members) && l.0 != name
      ensures outcome.Done? && !faulty ==> forall l: Link :: l in attached <==> l in old(attached) && !(l.0 == name && l in old(members))
      ensures outcome in {Done, NotFound, Failed}
      ensures outcome.Failed? || stuck != {} ==> faulty
      ensures old(faulty) ==> faulty
    {
      deleted, stuck := false, {};
      var readable: bool, commits: bool := *, *;
      faulty := faulty || !readable;
      if !readable {
        return Failed, deleted, stuck;
      }
      if name !in networks {
        return NotFound, deleted, stuck;
      }
      var todo := OfNetwork(members, name);
      while todo != {}
        invariant todo <= OfNetwork(members, name) && stuck <= OfNetwork(members, name) - todo
        invariant sites == old(sites) && networks == old(networks) && members == old(members)
        invariant old(faulty) || stuck != {} ==> faulty
        invariant attached == old(attached) - (OfNetwork(members, name) - todo - stuck)
      {
        var l :| l in todo;
        var disconnected: bool := *;
        if disconnected {
          attached := attached - {l};
        } else {
          stuck, faulty := stuck + {l}, true;
        }
        todo := todo - {l};
      }
      if !commits {
        faulty := true;
        return Failed, deleted, stuck;
      }
      members := members - OfNetwork(members, name);
      networks := networks - {name};
      deleted := true;
      return Done, deleted, stuck;
    }

    method AddSiteToNetwork(name: string, domain: string) returns (outcome: Outcome, ghost connected: bool)
      modifies this`members, this`attached, this`faulty
      ensures Now() == Joined(old(Now()), name, domain, outcome.Done?, connected)
      ensures outcome.Done? ==> Authorized(old(Now()), (name, domain)) && (name, domain) in members
      ensures outcome.Done? ==> name in networks && domain in sites && sites[domain].owner == networks[name]
      ensures outcome.Done? ==> members == old(members) + {(name, domain)}
      ensures attached == old(attached) + if outcome.Done? && connected then {(name, domain)} else {}
      ensures outcome.Forbidden? ==> name in networks && domain in sites && sites[domain].owner != networks[name]
      ensures !outcome.Done? ==> Now() == old(Now())
      ensures outcome in {Done, NotFound, Forbidden, Failed}
      ensures outcome.NotFound? ==> faulty || name !in networks || domain !in sites
      ensures outcome.Done? && !connected ==> faulty
      ensures outcome.Failed? ==> faulty
      ensures old(faulty) ==> faulty
    {
      connected := false;
      var readable: bool, found: bool, inserts: bool, connects: bool := *, *, *, *;
      faulty := faulty || !readable || !found || !inserts;
      if !readable {
        return Failed, connected;
      }
      if name !in networks || domain !in sites || !found {
        return NotFound, connected;
      }
      if sites[domain].owner != networks[name] {
        return Forbidden, connected;
      }
      if !inserts {
        return Failed, connected;
      }
      members := members + {(name, domain)};
      if connects {
        attached := attached + {(name, domain)};
        connected := true;
      } else {
        faulty := true;
      }
      return Done, connected;
    }

    method RemoveSiteFromNetwork(name: string, domain: string) returns (outcome: Outcome, ghost stuck: set<Link>)
      modifies this`members, this`attached, this`faulty
      ensures Now() == Left(old(Now()), name, domain, outcome.Done?, stuck)
      ensures members == old(members) - if outcome.Done? then {(name, domain)} else {}
      ensures outcome.Done? && !faulty ==> attached == old(attached) - {(name, domain)}
      ensures outcome.Failed? ==> attached == old(attached)
      ensures outcome in {Done, Failed}
      ensures outcome.Failed? || stuck != {} ==> faulty
      ensures old(faulty) ==> faulty
    {
      stuck := {};
      var removes: bool, disconnects: bool := *, *;
      faulty := faulty || !removes || !disconnects;
      if !removes {
        return Failed, stuck;
      }
      members := members - {(name, domain)};
      if disconnects {
        attached := attached - {(name, domain)};
      } else {
        stuck := {(name, domain)};
      }
      return Done, stuck;
    }

    method LeaveAllSharedNetworks(domain: string) returns (ghost listed: bool, ghost cleared: bool, ghost stuck: set<Link>)
      modifies this`members, this`attached, this`faulty
      ensures Now() == LeftAll(old(Now()), domain, listed, cleared, stuck)
      ensures !faulty ==> forall l: Link :: l in members <==> l in old(members) && l.1 != domain
      ensures !faulty ==> forall l: Link :: l in attached <==> l in old(attached) && !(l.1 == domain && l in old(members))
      ensures forall l: Link :: l.1 != domain ==> (l in members <==> l in old(members)) && (l in attached <==> l in old(attached))
      ensures !listed || !cleared || stuck != {} ==> faulty
      ensures old(faulty) ==> faulty
    {
      listed, cleared, stuck := false, false, {};
      var readable: bool, clears: bool := *, *;
      faulty := faulty || !readable || !clears;
      if !readable {
        return listed, cleared, stuck;
      }
      listed := true;
      var todo := OfSite(members, domain);
      while todo != {}
        invariant todo <= OfSite(members, domain) && stuck <= OfSite(members, domain) - todo
        invariant members == old(members) && (old(faulty) || !clears || stuck != {} ==> faulty)
        invariant attached == old(attached) - (OfSite(members, domain) - todo - stuck)
      {
        var l :| l in todo;
        var disconnected: bool := *;
        if disconnected {
          attached := attached - {l};
        } else {
          stuck, faulty := stuck + {l}, true;
        }
        todo := todo - {l};
      }
      if clears {
        members := members - OfSite(members, domain);
        cleared := true;
      }
      return listed, cleared, stuck;
    }

    method ReconnectSharedNetworks(domain: string) returns (ghost rejoined: set<Link>)
      modifies this`attached, this`faulty
      ensures old(faulty) ==> faulty
      ensures !faulty ==> forall l: Link :: l in attached <==> l in old(attached) || (l in members && l.1 == domain)
      ensures Now() == Reconnected(old(Now()), domain, rejoined)
      ensures old(attached) <= attached && forall l :: l in attached && l !in old(attached) ==> l in members && l.1 == domain
    {
      rejoined := {};
      var readable: bool := *;
      faulty := faulty || !readable;
      if !readable {
        return rejoined;
      }
      var todo := OfSite(members, domain);
      while todo != {}
        invariant todo <= OfSite(members, domain) && rejoined <= OfSite(members, domain) - todo
        invariant attached == old(attached) + rejoined
        invariant (old(faulty) ==> faulty) && (!faulty ==> rejoined == OfSite(members, domain) - todo)
      {
        var l :| l in todo;
        var connects: bool := *;
        if connects {
          attached, rejoined := attached + {l}, rejoined + {l};
        } else {
          faulty := true;
        }
        todo := todo - {l};
      }
      assert OfSite(members, domain) * rejoined == rejoined;
      return rejoined;
    }

    /** The owner's files follow the record; they are no part of this state. */
    method TransferSite(domain: string, newOwner: string, ownerExists: bool)
      returns (outcome: Outcome, ghost listed: bool, ghost cleared: bool, ghost stuck: set<Link>)
      modifies this
      ensures outcome.NotFound? ==> Now() == old(Now()) && (domain !in sites || (newOwner != "" && !ownerExists))
      ensures outcome in {Done, NotFound, Failed}
      ensures outcome.Done? ==> Now() == Transferred(old(Now()), domain, newOwner, listed, cleared, stuck, true)
      ensures outcome.Failed? && Now() != old(Now()) ==>
                Now() == Transferred(old(Now()), domain, newOwner, listed, cleared, stuck, false)
      ensures outcome.Failed? ==> faulty
      ensures outcome.Done? ==> domain in old(sites)
      ensures outcome.Done? ==> sites == old(sites)[domain := Site(newOwner, old(sites)[domain].status)]
      ensures !outcome.Done? ==> sites == old(sites)
      ensures outcome.Done? && !faulty && old(sites)[domain].owner != newOwner ==> MemberOfNone(Now(), domain)
      ensures outcome.Done? && old(sites)[domain].owner == newOwner ==> members == old(members) && attached == old(attached)
      ensures outcome.Done? && old(sites)[domain].owner != newOwner ==> faulty || (listed && cleared && stuck == {})
      ensures old(faulty) ==> faulty
    {
      listed, cleared, stuck := false, false, {};
      var readable: bool, updates: bool := *, *;
      faulty := faulty || !readable || !updates;
      if !readable {
        return Failed, listed, cleared, stuck;
      }
      if domain !in sites || (newOwner != "" && !ownerExists) {
        return NotFound, listed, cleared, stuck;
      }
      var oldOwner := sites[domain].owner;
      if newOwner != oldOwner {
        listed, cleared, stuck := LeaveAllSharedNetworks(domain);
      }
      if !updates {
        return Failed, listed, cleared, stuck;
      }
      sites := sites[domain := sites[domain].(owner := newOwner)];
      return Done, listed, cleared, stuck;
    }
  }

  // ---- Runs ----

  datatype Step =
    | CreateNetwork(name: string, owner: string, recorded: bool, bridged: bool, undone: bool)
    | DeleteNetwork(name: string, deleted: bool, stuck: set<Link>)
    | Join(name: string, domain: string, added: bool, connected: bool)
    | Leave(name: string, domain: string, removed: bool, stuck: set<Link>)
    | BeginSite(domain: string, owner: string, listed: bool, deleted: bool, inserted: bool)
    | SetStatus(domain: string, status: string)
    | RollBack(domain: string, stuck: set<Link>, cleared: bool, deleted: bool)
    | Destroy(domain: string, stuck: set<Link>, deleted: bool, cleared: bool)
    | Reconnect(domain: string, rejoined: set<Link>)
    | Transfer(domain: string, owner: string, listed: bool, cleared: bool, stuck: set<Link>, updated: bool)
    // The parts of what holds no lock, with other steps in between.
    | Record(name: string, owner: string)
    | Disconnect(link: Link)
    | DropNetwork(name: string)
    | DropMember(link: Link)
    | Insert(link: Link)
    | Connect(link: Link)
    | LeaveNetworks(domain: string, listed: bool, cleared: bool, stuck: set<Link>)
    | SetOwner(domain: string, owner: string, updated: bool)

  function Next(s: State, step: Step): State {
    match step
    case CreateNetwork(n, o, r, b, u) => NetworkCreated(s, n, o, r, b, u)
    case DeleteNetwork(n, d, stuck) => NetworkDeleted(s, n, d, stuck)
    case Join(n, d, a, c) => Joined(s, n, d, a, c)
    case Leave(n, d, r, stuck) => Left(s, n, d, r, stuck)
    case BeginSite(d, o, l, del, i) => SiteBegun(s, d, o, l, del, i)
    case SetStatus(d, st) => StatusSet(s, d, st)
    case RollBack(d, stuck, c, del) => RolledBack(s, d, stuck, c, del)
    case Destroy(d, stuck, del, c) => Destroyed(s, d, stuck, del, c)
    case Reconnect(d, c) => Reconnected(s, d, c)
    case Transfer(d, o, l, c, stuck, u) => Transferred(s, d, o, l, c, stuck, u)
    case Record(n, o) => if n in s.networks then s else s.(networks := s.networks[n := o])
    case Disconnect(l) => s.(attached := s.attached - {l})
    case DropNetwork(n) => Dropped(s, n)
    case DropMember(l) => s.(members := s.members - {l})
    case Insert(l) => Inserted(s, l)
    case Connect(l) => Connected(s, l)
    case LeaveNetworks(d, l, c, stuck) => LeftAll(s, d, l, c, stuck)
    case SetOwner(d, o, u) => OwnerSet(s, d, o, u)
  }

  /** When the calls that the step makes and does not check have not failed, or would not have
      mattered. */
  predicate Harmless(s: State, step: Step) {
    match step
    case BeginSite(d, o, listed, deleted, inserted) =>
      inserted || !deleted || (listed && Collides(s, d)) || !Reclaimable(s, d, o) || MemberOfNone(s, d)
    case RollBack(d, _, cleared, deleted) => cleared || !deleted || MemberOfNone(s, d)
    case Destroy(d, _, deleted, cleared) => cleared || (d in s.sites && !deleted) || MemberOfNone(s, d)
    case Transfer(d, o, listed, cleared, _, updated) =>
      d !in s.sites || !updated || o == s.sites[d].owner || (listed && cleared) || MemberOfNone(s, d)
    case Insert(l) => Authorized(s, l)
    case SetOwner(d, o, updated) => d !in s.sites || !updated || o == s.sites[d].owner || MemberOfNone(s, d)
    case _ => true
  }

  /** No link is cut in the records while a container stays attached. */
  predicate Unhooked(s: State, step: Step) {
    match step
    case DeleteNetwork(n, deleted, stuck) => n !in s.networks || !deleted || OfNetwork(s.members, n) * s.attached * stuck == {}
    case Leave(n, d, removed, stuck) => !removed || (n, d) !in s.attached || (n, d) !in stuck
    case RollBack(d, stuck, cleared, _) => !cleared || OfSite(s.members, d) * s.attached * stuck == {}
    case Destroy(d, stuck, deleted, cleared) =>
      (d in s.sites && !deleted) || !cleared || OfSite(s.members, d) * s.attached * stuck == {}
    case Transfer(d, o, listed, cleared, stuck, _) =>
      d !in s.sites || o == s.sites[d].owner || !listed || !cleared || OfSite(s.members, d) * s.attached * stuck == {}
    case DropNetwork(n) => OfNetwork(s.members, n) * s.attached == {}
    case DropMember(l) => l !in s.attached
    case Connect(l) => l in s.members
    case LeaveNetworks(d, listed, cleared, stuck) => !listed || !cleared || OfSite(s.members, d) * s.attached * stuck == {}
    case _ => true
  }

  /** A step keeps every member an existing site of the network's owner if and only if none of the calls
      whose failure it passes over has failed or it would not have mattered, an insertion is still
      authorized, and an owner changes only while the site is in no network. */
  lemma OwnersStayIffHarmless(s: State, step: Step)
    requires SameOwner(s)
    ensures SameOwner(Next(s, step)) <==> Harmless(s, step)
  {
  }

  /** Cutting `links` in the records, and on the wire all but `stuck` of the recorded ones. */
  lemma CutLinks(members: set<Link>, attached: set<Link>, links: set<Link>, stuck: set<Link>)
    requires attached <= members
    ensures attached - (links - stuck) <= members - links <==> links * attached * stuck == {}
  {
    if l :| l in links * attached * stuck {
      assert l in attached - (links - stuck) && l !in members - links;
    } else {
      assert forall l :: l in links && l in attached && l in stuck ==> l in links * attached * stuck;
    }
  }

  lemma KeptLinks(members: set<Link>, attached: set<Link>, links: set<Link>)
    requires attached <= members
    ensures attached <= members - links <==> links * attached == {}
  {
    if l :| l in links * attached {
      assert l in attached && l !in members - links;
    } else {
      assert forall l :: l in attached ==> l !in links * attached;
    }
  }

  /** A site's attached links are among its memberships. */
  lemma SiteLinks(s: State, domain: string, stuck: set<Link>)
    requires Wired(s)
    ensures s.attached - (OfSite(s.attached, domain) - stuck) == s.attached - (OfSite(s.members, domain) - stuck)
  {
  }

  /** Containers stay attached only where their site is a member if and only if no disconnection
      failed for a link that the step removes from the records. */
  lemma WiresStayIffUnhooked(s: State, step: Step)
    requires SameOwner(s) && Wired(s)
    ensures Wired(Next(s, step)) <==> Unhooked(s, step)
  {
    match step
    case CreateNetwork(n, _, _, _, _) =>
      assert forall l :: l in s.members ==> Authorized(s, l);
      assert n !in s.networks ==> OfNetwork(s.members, n) == {};
    case DeleteNetwork(n, _, stuck) => CutLinks(s.members, s.attached, OfNetwork(s.members, n), stuck);
    case Leave(n, d, _, stuck) =>
      CutLinks(s.members, s.attached, {(n, d)}, stuck);
      assert (n, d) in s.attached && (n, d) in stuck ==> (n, d) in {(n, d)} * s.attached * stuck;
    case Transfer(d, _, _, _, stuck, _) => CutLinks(s.members, s.attached, OfSite(s.members, d), stuck);
    case LeaveNetworks(d, _, _, stuck) => CutLinks(s.members, s.attached, OfSite(s.members, d), stuck);
    case DropNetwork(n) => KeptLinks(s.members, s.attached, OfNetwork(s.members, n));
    case RollBack(d, stuck, _, _) =>
      CutLinks(s.members, s.attached, OfSite(s.members, d), stuck);
      SiteLinks(s, d, stuck);
    case Destroy(d, stuck, _, _) =>
      CutLinks(s.members, s.attached, OfSite(s.members, d), stuck);
      SiteLinks(s, d, stuck);
    case _ =>
  }

  predicate DistinctIds(s: State) { forall a, b :: a in s.sites && b in s.sites && Id(a) == Id(b) ==> a == b }

  predicate IdChecked(s: State, step: Step) {
    step.BeginSite? && !step.listed && step.inserted ==> !Collides(s, step.domain)
  }

  /** Two sites never share the identifier their containers and networks are named by, if and only if
      the check at creation could list the sites or had nothing to find. */
  lemma IdsStayDistinctIffChecked(s: State, step: Step)
    requires DistinctIds(s)
    ensures DistinctIds(Next(s, step)) <==> IdChecked(s, step)
  {
  }

  /** Locks are per domain, so two creations may both pass the check before either inserts its record:
      the identifiers are still distinct if and only if the two names do not collide. */
  lemma TwoCreationsStayDistinctIffTheyDoNotCollide(s: State, a: string, b: string, ownerA: string, ownerB: string)
    requires DistinctIds(s) && a != b && a !in s.sites && b !in s.sites
    requires !Collides(s, a) && !Collides(s, b)
    ensures var first := SiteBegun(s, a, ownerA, false, false, true);
      DistinctIds(SiteBegun(first, b, ownerB, false, false, true)) <==> Id(a) != Id(b)
  {
    hide Id;
  }

  function After(steps: seq<Step>): State {
    if steps == [] then State(map[], map[], {}, {}) else Next(After(steps[..|steps| - 1]), steps[|steps| - 1])
  }

  predicate AllHarmless(steps: seq<Step>) {
    steps == [] || (AllHarmless(steps[..|steps| - 1]) && var s := After(steps[..|steps| - 1]); var step := steps[|steps| - 1];
                    Harmless(s, step) && Unhooked(s, step) && IdChecked(s, step))
  }

  /** In every state that harmless steps lead to, a shared network joins existing sites of one owner
      only, in the records and on the wire. */
  lemma {:induction false} NetworksNeverBridgeOwners(steps: seq<Step>)
    requires AllHarmless(steps)
    ensures SameOwner(After(steps)) && Wired(After(steps)) && DistinctIds(After(steps))
    ensures forall l :: l in After(steps).attached ==> Authorized(After(steps), l)
  {
    hide Harmless, Unhooked, IdChecked, Next, DistinctIds;
    if steps == [] {
      NothingYet();
    } else {
      var s, step := After(steps[..|steps| - 1]), steps[|steps| - 1];
      NetworksNeverBridgeOwners(steps[..|steps| - 1]);
      OwnersStayIffHarmless(s, step);
      WiresStayIffUnhooked(s, step);
      IdsStayDistinctIffChecked(s, step);
    }
  }

  lemma NothingYet()
    ensures DistinctIds(State(map[], map[], {}, {}))
  {
  }

  // ---- Between the steps of one operation ----

  /** A join that meets no other step is its check, its insertion and its connection. */
  lemma JoinIsItsSteps(s: State, l: Link)
    requires Authorized(s, l)
    ensures Joined(s, l.0, l.1, true, true) == Connected(Inserted(s, l), l)
    ensures Joined(s, l.0, l.1, true, false) == Inserted(s, l)
  {
  }

  /** The step leaves network, site and owner of an authorized link as they are. */
  predicate Spares(s: State, step: Step, l: Link)
    requires Authorized(s, l)
  {
    match step
    case DeleteNetwork(n, deleted, _) => n != l.0 || !deleted
    case DropNetwork(n) => n != l.0
    case BeginSite(d, o, listed, deleted, inserted) =>
      d != l.1 || inserted || !deleted || (listed && Collides(s, d)) || !Reclaimable(s, d, o)
    case RollBack(d, _, _, deleted) => d != l.1 || !deleted
    case Destroy(d, _, deleted, _) => d != l.1 || !deleted
    case Transfer(d, o, _, _, _, updated) => d != l.1 || !updated || o == s.networks[l.0]
    case SetOwner(d, o, updated) => d != l.1 || !updated || o == s.networks[l.0]
    case _ => true
  }

  /** A join holds no lock between its check and its insertion. With a harmless step in between it leaves
      only members of the network's owner if and only if the step spares what was checked. */
  lemma JoinAfterStepKeepsOwnersIff(s: State, step: Step, l: Link)
    requires SameOwner(s) && Authorized(s, l) && Harmless(s, step)
    ensures SameOwner(Inserted(Next(s, step), l)) <==> Spares(s, step, l)
  {
    OwnersStayIffHarmless(s, step);
    AuthorizedIffSpared(s, step, l);
    OwnersStayIffHarmless(Next(s, step), Insert(l));
  }

  lemma AuthorizedIffSpared(s: State, step: Step, l: Link)
    requires Authorized(s, l)
    ensures Authorized(Next(s, step), l) <==> Spares(s, step, l)
  {
  }

  /** The transfer holds no lock between leaving the networks and changing the owner. A join of the
      old owner that falls between the two is authorized and outlives the transfer. */
  lemma JoinDuringTransferSurvivesIt(s: State, name: string, domain: string, owner: string)
    requires SameOwner(s) && Authorized(s, (name, domain)) && s.networks[name] != owner
    ensures var left := LeftAll(s, domain, true, true, {}); var joined := Joined(left, name, domain, true, true);
      SameOwner(left) && SameOwner(joined) && !SameOwner(OwnerSet(joined, domain, owner, true))
  {
  }

  /** A deletion disconnects the members it has listed and then drops the records of all. An authorized
      join in between stays attached to the network that is gone. */
  lemma JoinDuringDeletionStaysAttached(s: State, l: Link)
    requires SameOwner(s) && Wired(s) && Authorized(s, l)
    ensures var cut := s.(attached := s.attached - OfNetwork(s.members, l.0)); var joined := Joined(cut, l.0, l.1, true, true);
      && Wired(cut) && Wired(Dropped(cut, l.0)) && Wired(joined)
      && SameOwner(Dropped(joined, l.0)) && !Wired(Dropped(joined, l.0))
  {
    var cut := s.(attached := s.attached - OfNetwork(s.members, l.0));
    var joined := Joined(cut, l.0, l.1, true, true);
    assert l in Dropped(joined, l.0).attached && l !in Dropped(joined, l.0).members;
  }

  /** A site that leaves a network is off the records before it is off the wire: in between its link
      outlasts the membership if and only if it was attached. */
  lemma LeavingIsItsSteps(s: State, l: Link)
    requires Wired(s)
    ensures Left(s, l.0, l.1, true, {}) == Next(Next(s, DropMember(l)), Disconnect(l))
    ensures Wired(Next(s, DropMember(l))) <==> l !in s.attached
    ensures Wired(Left(s, l.0, l.1, true, {}))
  {
  }
}
