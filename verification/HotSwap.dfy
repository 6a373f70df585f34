// The hot pairs of one rank: both variants of every pair are captured, and a switch
// enables the nodes of one and disables those of the other. Any driver call may fail
// and leave the switch half done.
module HotSwap {

  type Name = string

  // One captured pair: the nodes of the incumbent and of the candidate.
  datatype Site = Site(name: Name, base: seq<nat>, cand: seq<nat>)

  // The sites' node lists do not overlap.
  ghost predicate Disjoint(sites: seq<Site>) {
    && (forall i, x | 0 <= i < |sites| && x in sites[i].base :: x !in sites[i].cand)
    && (forall i, j | 0 <= i < j < |sites| :: SitesApart(sites[i], sites[j]))
  }

  ghost predicate SitesApart(a: Site, b: Site) {
    forall x | x in a.base || x in a.cand :: x !in b.base && x !in b.cand
  }

  // Exactly the variant of the site's arm is enabled.
  ghost predicate SiteRight(flags: map<nat, bool>, site: Site, cand: bool) {
    && (forall x | x in site.base :: x in flags && flags[x] == !cand)
    && (forall x | x in site.cand :: x in flags && flags[x] == cand)
  }

  ghost predicate SameFlags(a: map<nat, bool>, b: map<nat, bool>, nodes: seq<nat>) {
    forall x | x !in nodes :: (x in a <==> x in b) && (x in a ==> a[x] == b[x])
  }

  ghost predicate VariantKept(a: map<nat, bool>, b: map<nat, bool>, site: Site) {
    forall c: bool :: SiteRight(a, site, c) ==> SiteRight(b, site, c)
  }

  lemma RightKept(a: map<nat, bool>, b: map<nat, bool>, nodes: seq<nat>, site: Site, cand: bool)
    requires SiteRight(a, site, cand) && SameFlags(a, b, nodes)
    requires forall x | x in nodes :: x !in site.base && x !in site.cand
    ensures SiteRight(b, site, cand)
  {
  }

  // The driver calls it takes to toggle the first n sites.
  function SitesCost(sites: seq<Site>, on: set<Name>, arms: set<Name>, force: bool, n: nat): nat
    requires n <= |sites|
  {
    if n == 0 then 0
    else
      var site := sites[n - 1];
      SitesCost(sites, on, arms, force, n - 1)
      + if force || (site.name in arms) != (site.name in on) then |site.base| + |site.cand| else 0
  }

  lemma {:induction false} SitesCostMore(sites: seq<Site>, on: set<Name>, arms: set<Name>, force: bool, n: nat, k: nat)
    requires n <= k <= |sites|
    ensures SitesCost(sites, on, arms, force, n) <= SitesCost(sites, on, arms, force, k)
    decreases k
  {
    if n < k {
      SitesCostMore(sites, on, arms, force, n, k - 1);
    }
  }

  lemma {:induction false} ForcedSites(sites: seq<Site>, on: set<Name>, other: set<Name>, arms: set<Name>, n: nat)
    requires n <= |sites|
    ensures SitesCost(sites, on, arms, true, n) == SitesCost(sites, other, arms, true, n)
  {
    if n > 0 {
      ForcedSites(sites, on, other, arms, n - 1);
    }
  }

  // An executable graph: which nodes are enabled, and the pairs believed on.
  class Exec {
    const sites: seq<Site>
    var on: set<Name>
    var flags: map<nat, bool>

    constructor (sites: seq<Site>, on: set<Name>, flags: map<nat, bool>)
      ensures this.sites == sites && this.on == on && this.flags == flags
    {
      this.sites, this.on, this.flags := sites, on, flags;
    }

    ghost predicate Right(arms: set<Name>)
      reads this
    {
      forall i | 0 <= i < |sites| :: SiteRight(flags, sites[i], sites[i].name in arms)
    }

    // _set_enabled; `calls` is how many driver calls succeed before one fails.
    method SetEnabled(nodes: seq<nat>, value: bool, calls: nat) returns (ok: bool, left: nat)
      modifies this`flags
      ensures SameFlags(old(flags), flags, nodes)
      ensures ok ==> forall x | x in nodes :: x in flags && flags[x] == value
      ensures ok <==> calls >= |nodes|
      ensures ok ==> left == calls - |nodes|
    {
      left := calls;
      for n := 0 to |nodes|
        invariant left == calls - n && SameFlags(old(flags), flags, nodes)
        invariant forall k | 0 <= k < n :: nodes[k] in flags && flags[nodes[k]] == value
      {
        if left == 0 {
          return false, 0;
        }
        flags := flags[nodes[n] := value];
        left := left - 1;
      }
      ok := true;
    }

    // Site i to its arm; the other sites keep their variants.
    method ToggleSite(i: nat, cand: bool, calls: nat) returns (ok: bool, left: nat)
      requires Disjoint(sites) && i < |sites|
      modifies this`flags
      ensures ok <==> calls >= |sites[i].base| + |sites[i].cand|
      ensures ok ==> left == calls - |sites[i].base| - |sites[i].cand| && SiteRight(flags, sites[i], cand)
      ensures forall j | 0 <= j < |sites| && j != i :: VariantKept(old(flags), flags, sites[j])
    {
      ghost var was := flags;
      var site := sites[i];
      ok, left := SetEnabled(site.base, !cand, calls);
      ghost var half := flags;
      if ok {
        ok, left := SetEnabled(site.cand, cand, left);
      }
      forall j | 0 <= j < |sites| && j != i
        ensures VariantKept(was, flags, sites[j])
      {
        assert SitesApart(if i < j then site else sites[j], if i < j then sites[j] else site);
        forall c: bool | SiteRight(was, sites[j], c)
          ensures SiteRight(flags, sites[j], c)
        {
          RightKept(was, half, site.base, sites[j], c);
          RightKept(half, flags, site.cand, sites[j], c);
        }
      }
    }

    // _toggle: rewrites the sites whose arm changes, or all of them.
    method Toggle(arms: set<Name>, force: bool, calls: nat) returns (ok: bool, left: nat)
      requires Disjoint(sites)
      modifies this
      ensures ok ==> on == arms
      ensures !ok ==> on == old(on)
      ensures ok && (force || old(Right(on))) ==> Right(arms)
      ensures ok <==> calls >= SitesCost(sites, old(on), arms, force, |sites|)
      ensures ok ==> left == calls - SitesCost(sites, old(on), arms, force, |sites|)
      ensures !force && (forall i | 0 <= i < |sites| :: sites[i].name in arms <==> sites[i].name in old(on)) ==> ok && flags == old(flags)
    {
      left := calls;
      for i := 0 to |sites|
        invariant on == old(on) && left == calls - SitesCost(sites, on, arms, force, i)
        invariant !force && (forall i | 0 <= i < |sites| :: sites[i].name in arms <==> sites[i].name in on) ==> flags == old(flags)
        invariant force || old(Right(on)) ==> forall j | 0 <= j < i :: SiteRight(flags, sites[j], sites[j].name in arms)
        invariant old(Right(on)) ==> forall j | i <= j < |sites| :: SiteRight(flags, sites[j], sites[j].name in on)
      {
        var site := sites[i];
        var cand := site.name in arms;
        SitesCostMore(sites, on, arms, force, i + 1, |sites|);
        if force || cand != (site.name in on) {
          ok, left := ToggleSite(i, cand, left);
          if !ok {
            return;
          }
        }
      }
      on := arms;
      ok := true;
    }
  }

  // The rank's state. eager[n] is whether pair n's eager state is the candidate's.
  class HotState {
    const listed: seq<Name>
    const withApply: set<Name>
    var execs: seq<Exec>
    var on: set<Name>
    var generation: int
    var eager: map<Name, bool>

    constructor (listed: seq<Name>, withApply: set<Name>)
      ensures this.listed == listed && this.withApply == withApply && execs == [] && on == {} && generation == 0
      ensures Shape()
    {
      this.listed, this.withApply := listed, withApply;
      execs, on, generation := [], {}, 0;
      eager := map[];
    }

    ghost predicate Shape()
      reads this
    {
      && (forall i, j | 0 <= i < j < |execs| :: execs[i] != execs[j])
      && (forall i | 0 <= i < |execs| :: Disjoint(execs[i].sites))
    }

    ghost predicate EagerRight(arms: set<Name>, n: nat)
      requires n <= |listed|
      reads this
    {
      forall k | 0 <= k < n && listed[k] in withApply :: listed[k] in eager && eager[listed[k]] == (listed[k] in arms)
    }

    ghost predicate GraphsRight(arms: set<Name>)
      reads this, execs
    {
      forall i | 0 <= i < |execs| :: execs[i].on == arms && execs[i].Right(arms)
    }

    // Every graph site and every eager state is its arm's.
    ghost predicate Consistent(arms: set<Name>)
      reads this, execs
    {
      GraphsRight(arms) && EagerRight(arms, |listed|)
    }

    // The pairs each graph believes on.
    ghost function Ons(): seq<set<Name>>
      reads this, execs
    {
      seq(|execs|, i requires 0 <= i < |execs| reads this, execs => execs[i].on)
    }

    // The driver calls it takes to toggle and upload the graphs from i on.
    ghost function GraphsCost(ons: seq<set<Name>>, arms: set<Name>, force: bool, i: nat): nat
      requires i <= |execs| == |ons|
      reads this`execs
      decreases |execs| - i
    {
      if i == |execs| then 0
      else SitesCost(execs[i].sites, ons[i], arms, force, |execs[i].sites|) + 1 + GraphsCost(ons, arms, force, i + 1)
    }

    // The eager applies from k on.
    ghost function EagerCost(before: set<Name>, arms: set<Name>, force: bool, k: nat): nat
      requires k <= |listed|
      decreases |listed| - k
    {
      if k == |listed| then 0
      else
        (if listed[k] in withApply && (force || (listed[k] in arms) != (listed[k] in before)) then 1 else 0)
        + EagerCost(before, arms, force, k + 1)
    }

    // By force every node is rewritten, whatever was believed on.
    lemma ForcedCost(ons: seq<set<Name>>, others: seq<set<Name>>, before: set<Name>, other: set<Name>, arms: set<Name>, i: nat, k: nat)
      requires i <= |execs| == |ons| == |others| && k <= |listed|
      ensures GraphsCost(ons, arms, true, i) == GraphsCost(others, arms, true, i)
      ensures EagerCost(before, arms, true, k) == EagerCost(other, arms, true, k)
      decreases |execs| - i + |listed| - k
    {
      if i < |execs| {
        ForcedSites(execs[i].sites, ons[i], others[i], arms, |execs[i].sites|);
        ForcedCost(ons, others, before, other, arms, i + 1, k);
      }
      if k < |listed| {
        ForcedCost(ons, others, before, other, arms, i, k + 1);
      }
    }

    // Every executable graph to `arms`; `calls` driver calls succeed.
    method ToggleAll(arms: set<Name>, force: bool, calls: nat) returns (ok: bool, left: nat)
      requires Shape()
      modifies execs
      ensures ok && (force || old(GraphsRight(on))) ==> GraphsRight(arms)
      ensures ok <==> calls >= GraphsCost(old(Ons()), arms, force, 0)
      ensures ok ==> left == calls - GraphsCost(old(Ons()), arms, force, 0)
    {
      left := calls;
      ghost var ons := Ons();
      for i := 0 to |execs|
        invariant left == calls - GraphsCost(ons, arms, force, 0) + GraphsCost(ons, arms, force, i)
        invariant forall j | i <= j < |execs| :: execs[j].on == ons[j]
        invariant force || old(GraphsRight(on)) ==> forall j | 0 <= j < i :: execs[j].on == arms && execs[j].Right(arms)
        invariant forall j | i <= j < |execs| :: execs[j].on == old(execs[j].on) && execs[j].flags == old(execs[j].flags)
      {
        ghost var right := execs[i].Right(execs[i].on);
        assert old(GraphsRight(on)) ==> right by {
          if old(GraphsRight(on)) {
            assert old(execs[i].Right(execs[i].on));
          }
        }
        ok, left := execs[i].Toggle(arms, force, left);
        if !ok {
          return;
        }
        // cuGraphUpload
        if left == 0 {
          return false, 0;
        }
        left := left - 1;
      }
      ok := true;
    }

    // _apply: the graphs, then the eager states, then the arms on record, between two
    // synchronizes. An eager apply that fails leaves its state as `junk` says. It succeeds
    // exactly when all the calls it makes do.
    method Apply(arms: set<Name>, force: bool, calls: nat, junk: bool) returns (ok: bool)
      requires Shape()
      modifies this`on, this`eager, execs
      ensures Shape() && (ok ==> on == arms) && (!ok ==> on == old(on))
      ensures ok && (force || old(Consistent(on))) ==> Consistent(arms)
      ensures ok <==> calls >= 2 + GraphsCost(old(Ons()), arms, force, 0) + EagerCost(old(on), arms, force, 0)
    {
      if calls == 0 {
        return false;
      }
      ghost var ons := Ons();
      var left;
      ok, left := ToggleAll(arms, force, calls - 1);
      if !ok {
        return;
      }
      ok, left := ApplyEager(arms, force, left, junk);
      if !ok || left == 0 {
        return false;
      }
      on := arms;
    }

    // Every eager state whose arm changes, or all of them.
    method ApplyEager(arms: set<Name>, force: bool, calls: nat, junk: bool) returns (ok: bool, left: nat)
      modifies this`eager
      ensures ok && (force || old(EagerRight(on, |listed|))) ==> EagerRight(arms, |listed|)
      ensures ok <==> calls >= EagerCost(on, arms, force, 0)
      ensures ok ==> left == calls - EagerCost(on, arms, force, 0)
    {
      left := calls;
      for k := 0 to |listed|
        invariant left == calls - EagerCost(on, arms, force, 0) + EagerCost(on, arms, force, k)
        invariant force || old(EagerRight(on, |listed|)) ==> EagerRight(arms, k)
        invariant forall j | k <= j < |listed| && listed[j] !in listed[..k] ::
                    (listed[j] in eager <==> listed[j] in old(eager)) && (listed[j] in eager ==> eager[listed[j]] == old(eager[listed[j]]))
      {
        var name := listed[k];
        assert listed[..k + 1] == listed[..k] + [name];
        if name in withApply && (force || (name in arms) != (name in on)) {
          if left == 0 {
            eager := eager[name := junk];
            return false, 0;
          }
          left := left - 1;
          eager := eager[name := name in arms];
        }
      }
      ok := true;
    }

    // A switch that fails half done and is restored by force leaves the rank as it was
    // before, whatever the failure left behind; one that is not restored says so. It is
    // applied exactly when all the calls for what changes succeed, and else restored exactly
    // when all the calls for everything do.
    method SwitchOrRestore(arms: set<Name>, newGeneration: int, calls: nat, junk: bool, restoreCalls: nat, restoreJunk: bool)
      returns (applied: bool, restored: bool)
      requires Shape() && Consistent(on)
      modifies this`on, this`eager, this`generation, execs
      ensures Shape()
      ensures applied <==> calls >= 2 + GraphsCost(old(Ons()), arms, false, 0) + EagerCost(old(on), arms, false, 0)
      ensures !applied ==>
        (restored <==> restoreCalls >= 2 + GraphsCost(old(Ons()), old(on), true, 0) + EagerCost(old(on), old(on), true, 0))
      ensures applied ==> Consistent(on) && on == arms && generation == newGeneration
      ensures !applied && restored ==> Consistent(on) && on == old(on) && generation == old(generation)
    {
      var previous := on;
      restored := false;
      applied := Apply(arms, false, calls, junk);
      if applied {
        generation := newGeneration;
        return;
      }
      ForcedCost(Ons(), old(Ons()), on, previous, previous, 0, 0);
      restored := Apply(previous, true, restoreCalls, restoreJunk);
    }
  }

  // Restoring without force is not enough: after a toggle that fails between a site's
  // base and candidate nodes, toggling back unforced succeeds and changes nothing.
  method UnforcedRestoreFails() returns (ex: Exec, switched: bool, restored: bool)
    ensures !switched && restored && ex.on == {} && !ex.Right({})
  {
    var site := Site("pair", [0], [1]);
    ex := new Exec([site], {}, map[0 := true, 1 := false]);
    assert SiteRight(ex.flags, site, false);
    var left;
    switched, left := HalfToggle(ex, site);
    restored, left := UnforcedBack(ex, site);
  }

  method HalfToggle(ex: Exec, site: Site) returns (ok: bool, left: nat)
    requires ex.sites == [site] && site == Site("pair", [0], [1]) && ex.on == {} && ex.flags == map[0 := true, 1 := false]
    modifies ex
    ensures !ok && ex.on == {} && 0 in ex.flags && !ex.flags[0]
  {
    // The calls Toggle({"pair"}, false, 1) makes.
    ok, left := ex.SetEnabled(site.base, false, 1);
    assert site.base[0] == 0 && 0 !in site.cand;
    ok, left := ex.SetEnabled(site.cand, true, left);
  }

  method UnforcedBack(ex: Exec, site: Site) returns (ok: bool, left: nat)
    requires ex.sites == [site] && site == Site("pair", [0], [1]) && ex.on == {} && 0 in ex.flags && !ex.flags[0]
    modifies ex
    ensures ok && ex.on == {} && !ex.Right({})
  {
    ok, left := ex.Toggle({}, false, 9);
    assert 0 in ex.sites[0].base && !SiteRight(ex.flags, ex.sites[0], false);
  }
}
