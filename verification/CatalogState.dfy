/** pkg/catalog/live_service.go in its own form: the slices of a loaded LiveState edited in place. */
module CatalogState {
  import opened Base
  import opened Order
  import opened Catalog

  // The copy of the stored state that one attempt of mutate works on.
  class Draft {
    var publications: seq<Publication>
    var routes: seq<Route>
    var tombstones: seq<Tombstone>

    function Value(): LiveState
      reads this
    {
      LiveState(publications, routes, tombstones)
    }

    constructor (s: LiveState)
      ensures Value() == s
    {
      publications, routes, tombstones := s.publications, s.routes, s.tombstones;
    }

    method PruneTombstones(now: int)
      modifies this
      ensures Value() == Catalog.PruneTombstones(old(Value()), now)
    {
      var retained: seq<Tombstone> := [];
      var all := tombstones;
      for i := 0 to |all|
        invariant Value() == old(Value())
        invariant retained + KeepTombstones(all[i..], now) == KeepTombstones(all, now)
      {
        if now < all[i].retainUntil {
          retained := retained + [all[i]];
        }
        assert all[i..][1..] == all[i + 1..];
      }
      tombstones := retained;
    }

    method ProviderRouteFor(key: Key) returns (route: string)
      ensures route == RouteFor(routes, key)
    {
      for i := 0 to |routes|
        invariant RouteFor(routes[i..], key) == RouteFor(routes, key)
      {
        if routes[i].key == key {
          return routes[i].providerRoute;
        }
        assert routes[i..][1..] == routes[i + 1..];
      }
      return "";
    }

    method RemoveProviderRoute(key: Key)
      modifies this`routes
      ensures routes == RemoveRoute(old(routes), key)
    {
      var retained: seq<Route> := [];
      var all := routes;
      for i := 0 to |all|
        invariant routes == all
        invariant retained + RemoveRoute(all[i..], key) == RemoveRoute(all, key)
      {
        if all[i].key != key {
          retained := retained + [all[i]];
        }
        assert all[i..][1..] == all[i + 1..];
      }
      routes := retained;
    }

    method AppendTombstone(p: Publication, route: string, until: int)
      modifies this`tombstones
      ensures tombstones == old(tombstones) + [Tombstone(p.key, route, p.sequence, until)]
    {
      tombstones := tombstones + [Tombstone(p.key, route, p.sequence, until)];
    }

    method PruneExpiredPublications(now: int, retention: int)
      modifies this
      ensures Value() == PruneExpired(old(Value()), now, retention)
    {
      var live: seq<Publication> := [];
      var all := publications;
      for i := 0 to |all|
        invariant publications == all
        invariant live + LivePublications(all[i..], now) == LivePublications(all, now)
        invariant RetireExpired(Value(), all[i..], now, retention) == RetireExpired(old(Value()), all, now, retention)
      {
        var p := all[i];
        assert all[i..][1..] == all[i + 1..] && all[i..][0] == p;
        if LiveAt(p, now) {
          live := live + [p];
        } else {
          ghost var before := Value();
          var route := ProviderRouteFor(p.key);
          AppendTombstone(p, route, now + retention);
          RemoveProviderRoute(p.key);
          assert Value() == Retire(before, p, now + retention);
        }
      }
      publications := live;
    }

    method IndexOf(reg: Registration) returns (index: int)
      ensures index == match FindPublication(publications, reg) case None => -1 case Some(i) => i
    {
      for i := 0 to |publications|
        invariant match FindPublication(publications[i..], reg)
                  case None => FindPublication(publications, reg).None?
                  case Some(k) => FindPublication(publications, reg) == Some(i + k)
      {
        if RegOf(publications[i].key) == reg {
          return i;
        }
        assert publications[i..][1..] == publications[i + 1..];
      }
      return -1;
    }

    method AdmittedBy(b: Binding, key: Key) returns (refusal: Option<Refusal>)
      ensures refusal == if Tombstoned(tombstones, key) then Some(GenerationRetired)
                         else if OwnedElsewhere(tombstones, RegOf(key), b.providerRoute) then Some(RecentForeignRoute)
                         else None
    {
      for i := 0 to |tombstones|
        invariant !Tombstoned(tombstones[..i], key)
      {
        if tombstones[i].key == key {
          return Some(GenerationRetired);
        }
      }
      assert tombstones[..|tombstones|] == tombstones;
      for i := 0 to |tombstones|
        invariant forall k :: 0 <= k < i ==>
          !(RegOf(tombstones[k].key) == RegOf(key) && tombstones[k].providerRoute != "" && tombstones[k].providerRoute != b.providerRoute)
      {
        var t := tombstones[i];
        if RegOf(t.key) == RegOf(key) && t.providerRoute != "" && t.providerRoute != b.providerRoute {
          return Some(RecentForeignRoute);
        }
      }
      return None;
    }

    method ImmutableRevisions(previous: seq<ToolEntry>, next: seq<ToolEntry>) returns (ok: bool)
      ensures ok <==> Immutable(previous, next)
    {
      var byRef: map<ToolRef, ToolEntry> := map[];
      for i := 0 to |previous|
        invariant forall ref :: EntryFor(previous[..i], ref) == if ref in byRef then Some(byRef[ref]) else None
      {
        byRef := byRef[previous[i].ref := previous[i]];
        assert previous[..i + 1][..i] == previous[..i];
      }
      assert previous[..|previous|] == previous;
      for i := 0 to |next|
        invariant forall k :: 0 <= k < i ==> var was := EntryFor(previous, next[k].ref); was.None? || was.value == next[k]
      {
        var entry := next[i];
        if entry.ref in byRef && byRef[entry.ref] != entry {
          return false;
        }
      }
      return true;
    }

    // The closure of Publish.
    method Publish(c: Config, now: int, b: Binding, p: Publication) returns (refusal: Option<Refusal>)
      modifies this
      ensures var r := Change(c, old(Value()), now, Command.Publish(b, p));
              if r.Ok? then refusal.None? && Value() == r.value else refusal == Some(r.error)
    {
      var index := IndexOf(RegOf(p.key));
      if index >= 0 {
        refusal := MakeWay(c, now, b, p, index);
        if refusal.Some? {
          return;
        }
      }
      refusal := AdmittedBy(b, p.key);
      if refusal.Some? {
        return;
      }
      publications := publications + [p];
      if b.providerRoute != "" {
        routes := routes + [Route(p.key, b.providerRoute)];
      } else {
        assert routes + [] == routes;
      }
    }

    // The part of that closure that takes the current publication out of the way.
    method MakeWay(c: Config, now: int, b: Binding, p: Publication, index: nat) returns (refusal: Option<Refusal>)
      requires FindPublication(publications, RegOf(p.key)) == Some(index)
      modifies this
      ensures var r := Displace(c, old(Value()), now, b, p);
              if r.Ok? then refusal.None? && Value() == r.value else refusal == Some(r.error)
    {
      var current := publications[index];
      var route := ProviderRouteFor(current.key);
      if route != b.providerRoute {
        return Some(ForeignRoute);
      }
      var expired := now >= current.lease;
      if current.key.generation == p.key.generation {
        if expired {
          return Some(LeaseExpired);
        }
        if p.sequence <= current.sequence {
          return Some(StaleSequence);
        }
        var same := ImmutableRevisions(current.entries, p.entries);
        if !same {
          return Some(ChangedRevision);
        }
      } else {
        if !expired && !b.generationReplacement {
          return Some(LiveGenerationOwns);
        }
        AppendTombstone(current, route, now + c.retention);
      }
      publications := publications[..index] + publications[index + 1..];
      RemoveProviderRoute(current.key);
      return None;
    }

    // The closure of Renew.
    method Renew(c: Config, now: int, b: Binding, key: Key, sequence: nat, lease: int) returns (refusal: Option<Refusal>)
      modifies this
      ensures var r := Change(c, old(Value()), now, Command.Renew(b, key, sequence, lease));
              if r.Ok? then refusal.None? && Value() == r.value else refusal == Some(r.error)
    {
      var index := IndexOf(RegOf(key));
      if index < 0 || publications[index].key.generation != key.generation {
        return Some(NotCurrent);
      }
      var route := ProviderRouteFor(key);
      if route != b.providerRoute {
        return Some(ForeignRoute);
      }
      var current := publications[index];
      if now >= current.lease {
        return Some(LeaseExpired);
      }
      if sequence <= current.sequence {
        return Some(StaleSequence);
      }
      publications := publications[index := current.(sequence := sequence, lease := lease)];
      return None;
    }

    // The closure of Revoke.
    method Revoke(c: Config, now: int, b: Binding, key: Key, sequence: nat) returns (refusal: Option<Refusal>)
      modifies this
      ensures var r := Change(c, old(Value()), now, Command.Revoke(b, key, sequence));
              if r.Ok? then refusal.None? && Value() == r.value else refusal == Some(r.error)
    {
      var index := IndexOf(RegOf(key));
      if index < 0 || publications[index].key.generation != key.generation {
        return Some(NotCurrent);
      }
      var current := publications[index];
      assert current.key == key;
      var route := ProviderRouteFor(key);
      if route != b.providerRoute {
        return Some(ForeignRoute);
      }
      if sequence <= current.sequence {
        return Some(StaleSequence);
      }
      AppendTombstone(current.(sequence := sequence), route, now + c.retention);
      publications := publications[..index] + publications[index + 1..];
      RemoveProviderRoute(key);
      return None;
    }

    // validateState: three passes over two sets of seen keys.
    method Validate() returns (ok: bool)
      ensures ok <==> WellFormed(Value())
    {
      var registrations: set<Registration>, generations: set<Key> := {}, {};
      for i := 0 to |publications|
        invariant DistinctBy(publications[..i], PublicationReg)
        invariant registrations == set k | 0 <= k < i :: PublicationReg(publications[k])
        invariant generations == set k | 0 <= k < i :: publications[k].key
      {
        if PublicationReg(publications[i]) in registrations {
          return false;
        }
        registrations := registrations + {PublicationReg(publications[i])};
        generations := generations + {publications[i].key};
      }
      assert publications[..|publications|] == publications;
      assert forall key :: key in generations <==> IsCurrent(Value(), key);
      ok := ValidateRoutes(generations);
      if ok {
        ok := ValidateTombstones(generations);
      }
    }

    method ValidateRoutes(generations: set<Key>) returns (ok: bool)
      requires forall key :: key in generations <==> IsCurrent(Value(), key)
      ensures ok <==> DistinctBy(routes, RouteKey) && forall r :: r in routes ==> r.providerRoute != "" && IsCurrent(Value(), r.key)
    {
      var seen: set<Key> := {};
      for i := 0 to |routes|
        invariant DistinctBy(routes[..i], RouteKey)
        invariant seen == set k | 0 <= k < i :: RouteKey(routes[k])
        invariant forall k :: 0 <= k < i ==> routes[k].providerRoute != "" && IsCurrent(Value(), routes[k].key)
      {
        assert routes[i] in routes;
        if routes[i].providerRoute == "" || RouteKey(routes[i]) in seen || routes[i].key !in generations {
          return false;
        }
        seen := seen + {RouteKey(routes[i])};
      }
      assert routes[..|routes|] == routes;
      return true;
    }

    method ValidateTombstones(current: set<Key>) returns (ok: bool)
      requires forall key :: key in current <==> IsCurrent(Value(), key)
      ensures ok <==> DistinctBy(tombstones, TombstoneKey) && forall t :: t in tombstones ==> !IsCurrent(Value(), t.key)
    {
      var generations := current;
      for i := 0 to |tombstones|
        invariant DistinctBy(tombstones[..i], TombstoneKey)
        invariant generations == current + set k | 0 <= k < i :: TombstoneKey(tombstones[k])
        invariant forall k :: 0 <= k < i ==> !IsCurrent(Value(), tombstones[k].key)
      {
        assert tombstones[i] in tombstones;
        if TombstoneKey(tombstones[i]) in generations {
          return false;
        }
        generations := generations + {TombstoneKey(tombstones[i])};
      }
      assert tombstones[..|tombstones|] == tombstones;
      return true;
    }
  }
}
