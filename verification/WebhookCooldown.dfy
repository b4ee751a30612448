/** The webhook deploy cooldown (internal/engine/webhook.go): repeated deliveries for a domain
    within ten seconds start one deploy. The map of last starts evicts old entries. */
module WebhookCooldown {
  const COOLDOWN := 10_000_000_000  // 10 seconds
  const ZERO_TIME := 0              // what a missing map entry reads as

  type Starts = map<string, int>

  function LastOf(m: Starts, d: string): int { if d in m then m[d] else ZERO_TIME }

  predicate TooSoon(m: Starts, d: string, now: int) { now - LastOf(m, d) < COOLDOWN }

  function Evicted(m: Starts, now: int): Starts {
    map d | d in m && now - m[d] <= COOLDOWN :: m[d]
  }

  datatype Webhook = Webhook(domain: string, active: bool)

  datatype Lookup = Unknown | Found(hook: Webhook)

  datatype Signature = Absent | Valid | Forged

  datatype Reply = UnknownToken | Inactive | BadSignature | Skipped | Deploying(domain: string)

  class Cooldown {
    var lastDeploy: Starts

    constructor ()
      ensures lastDeploy == map[]
    {
      lastDeploy := map[];
    }

    method HandleWebhook(lookup: Lookup, signature: Signature, now: int) returns (r: Reply)
      modifies this
      ensures r == UnknownToken <==> lookup.Unknown?
      ensures r == Inactive <==> lookup.Found? && !lookup.hook.active
      ensures r == BadSignature <==> lookup.Found? && lookup.hook.active && signature.Forged?
      ensures r.Deploying? || r.Skipped? ==> (r.Skipped? <==> TooSoon(old(lastDeploy), lookup.hook.domain, now))
      ensures r.Deploying? ==> r.domain == lookup.hook.domain
      ensures r.Deploying? ==> lastDeploy == Evicted(old(lastDeploy)[r.domain := now], now)
      ensures !r.Deploying? ==> lastDeploy == old(lastDeploy)
      ensures lookup.Found? && lookup.hook.active && !signature.Forged? ==>
                var d := lookup.hook.domain;
                r == if d in old(lastDeploy) && now - old(lastDeploy)[d] < 10_000_000_000 then Skipped
                     else if d !in old(lastDeploy) && now < 10_000_000_000 then Skipped else Deploying(d)
      ensures r.Deploying? ==> r.domain in lastDeploy && lastDeploy[r.domain] == now
      ensures r.Deploying? ==> forall d :: d != r.domain ==>
                && (d in lastDeploy <==> d in old(lastDeploy) && now - old(lastDeploy)[d] <= 10_000_000_000)
                && (d in lastDeploy ==> lastDeploy[d] == old(lastDeploy)[d])
    {
      if lookup.Unknown? {
        return UnknownToken;
      }
      if !lookup.hook.active {
        return Inactive;
      }
      if signature.Forged? {
        return BadSignature;
      }
      var domain := lookup.hook.domain;
      if now - (if domain in lastDeploy then lastDeploy[domain] else ZERO_TIME) < COOLDOWN {
        return Skipped;
      }
      lastDeploy := lastDeploy[domain := now];
      ghost var all := lastDeploy;
      var todo := lastDeploy.Keys;
      while todo != {}
        invariant todo <= all.Keys
        invariant lastDeploy == map d | d in all && (d in todo || now - all[d] <= COOLDOWN) :: all[d]
      {
        var d :| d in todo;
        if now - lastDeploy[d] > COOLDOWN {
          lastDeploy := lastDeploy - {d};
        }
        todo := todo - {d};
      }
      return Deploying(domain);
    }
  }

  // The map against the history of starts.

  datatype Delivery = Delivery(domain: string, at: int)

  function After(ds: seq<Delivery>): Starts {
    if ds == [] then map[] else
    var m := After(ds[..|ds| - 1]);
    var d := ds[|ds| - 1];
    if TooSoon(m, d.domain, d.at) then m else Evicted(m[d.domain := d.at], d.at)
  }

  /** The times deploys of `domain` were started, by the rule alone: start when none started in the
      last ten seconds. */
  function Started(ds: seq<Delivery>, domain: string): seq<int> {
    if ds == [] then [] else
    var h := Started(ds[..|ds| - 1], domain);
    var d := ds[|ds| - 1];
    if d.domain == domain && Free(h, d.at) then h + [d.at] else h
  }

  predicate Free(h: seq<int>, now: int) {
    forall i :: 0 <= i < |h| ==> now - h[i] >= COOLDOWN
  }

  predicate InTime(ds: seq<Delivery>, now: int) {
    && (forall i :: 0 <= i < |ds| ==> ZERO_TIME + COOLDOWN <= ds[i].at <= now)
    && (forall i, j :: 0 <= i < j < |ds| ==> ds[i].at <= ds[j].at)
  }

  ghost predicate Remembers(m: Starts, domain: string, h: seq<int>, now: int) {
    && (forall i :: 0 <= i < |h| ==> h[i] <= now)
    && (forall i, j :: 0 <= i < j < |h| ==> h[i] + COOLDOWN <= h[j])
    && (domain in m ==> h != [] && m[domain] == h[|h| - 1])
    && (domain !in m ==> forall i :: 0 <= i < |h| ==> now - h[i] > COOLDOWN)
  }

  lemma DeliveryKeeps(m: Starts, domain: string, h: seq<int>, d: Delivery, before: int)
    requires Remembers(m, domain, h, before) && before <= d.at && ZERO_TIME + COOLDOWN <= d.at
    ensures d.domain == domain ==> (TooSoon(m, domain, d.at) <==> !Free(h, d.at))
    ensures Remembers(if TooSoon(m, d.domain, d.at) then m else Evicted(m[d.domain := d.at], d.at), domain,
                      if d.domain == domain && Free(h, d.at) then h + [d.at] else h, d.at)
  {
  }

  lemma {:induction false} RunRemembers(ds: seq<Delivery>, domain: string, now: int)
    requires InTime(ds, now) && ZERO_TIME + COOLDOWN <= now
    ensures Remembers(After(ds), domain, Started(ds, domain), now)
  {
    if ds != [] {
      var n := |ds| - 1;
      var before := if n > 0 then ds[n - 1].at else ds[n].at;
      RunRemembers(ds[..n], domain, before);
      DeliveryKeeps(After(ds[..n]), domain, Started(ds[..n], domain), ds[n], before);
    }
  }

  /** Despite eviction, a delivery starts a deploy exactly when none started for its domain in the
      last ten seconds; so two starts of one domain are at least ten seconds apart. */
  lemma StartsExactlyWhenNoneIsRecent(ds: seq<Delivery>, domain: string, now: int)
    requires InTime(ds, now) && ZERO_TIME + COOLDOWN <= now
    ensures !TooSoon(After(ds), domain, now) <==> Free(Started(ds, domain), now)
    ensures forall i, j :: 0 <= i < j < |Started(ds, domain)| ==> Started(ds, domain)[i] + COOLDOWN <= Started(ds, domain)[j]
  {
    RunRemembers(ds, domain, now);
    DeliveryKeeps(After(ds), domain, Started(ds, domain), Delivery(domain, now), now);
  }
}
