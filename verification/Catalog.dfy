/** pkg/catalog/live_service.go: the live tool catalog as a state machine.
 *
 * `Execute` is one Publish, Renew or Revoke inside the mutate loop: admit, prune, change, normalize,
 * validate. Times are integers, and an entry's JSON is its value. */
module Catalog {
  import opened Base
  import opened Text
  import opened Order

  datatype Key = Key(providerId: string, registrationId: string, generation: string)

  datatype Registration = Registration(providerId: string, registrationId: string)

  datatype ToolRef = ToolRef(key: Key, name: string, revision: string)

  datatype ToolEntry = ToolEntry(ref: ToolRef, content: string)

  datatype Context = Context(
    workspaceId: string, threadId: string, viewId: string, toolHostId: string, surfaceKind: string, surfaceInstanceId: string)

  datatype Publication = Publication(key: Key, sequence: nat, lease: int, context: Context, entries: seq<ToolEntry>)

  datatype Route = Route(key: Key, providerRoute: string)

  datatype Tombstone = Tombstone(key: Key, providerRoute: string, sequence: nat, retainUntil: int)

  datatype LiveState = LiveState(publications: seq<Publication>, routes: seq<Route>, tombstones: seq<Tombstone>)

  // The transport's view of the provider that sends a mutation.
  datatype Binding = Binding(key: Key, providerRoute: string, requiredContext: Context, generationReplacement: bool)

  datatype Command =
    | Publish(binding: Binding, publication: Publication)
    | Renew(binding: Binding, key: Key, sequence: nat, lease: int)
    | Revoke(binding: Binding, key: Key, sequence: nat)

  datatype Refusal =
    | BadBinding | IdentityMismatch | LeaseInPast
    | ForeignRoute | LeaseExpired | StaleSequence | ChangedRevision
    | LiveGenerationOwns | GenerationRetired | RecentForeignRoute | NotCurrent
    | BrokenState

  // Positive by NewLiveService, which replaces anything else by its defaults.
  datatype Config = Config(maxLease: int, retention: int)

  function RegOf(key: Key): Registration {
    Registration(key.providerId, key.registrationId)
  }

  function PublicationReg(p: Publication): Registration { RegOf(p.key) }

  function RouteKey(r: Route): Key { r.key }

  function TombstoneKey(t: Tombstone): Key { t.key }

  // ---- Lookups ----

  function FindPublication(ps: seq<Publication>, reg: Registration): (r: Option<nat>)
    ensures r.None? ==> forall p :: p in ps ==> RegOf(p.key) != reg
    ensures r.Some? ==> r.value < |ps| && RegOf(ps[r.value].key) == reg
  {
    if ps == [] then None
    else if RegOf(ps[0].key) == reg then Some(0)
    else match FindPublication(ps[1..], reg) case None => None case Some(i) => Some(i + 1)
  }

  function RouteFor(rs: seq<Route>, key: Key): string {
    if rs == [] then "" else if rs[0].key == key then rs[0].providerRoute else RouteFor(rs[1..], key)
  }

  function RemoveRoute(rs: seq<Route>, key: Key): seq<Route> {
    if rs == [] then [] else (if rs[0].key == key then [] else [rs[0]]) + RemoveRoute(rs[1..], key)
  }

  predicate Tombstoned(ts: seq<Tombstone>, key: Key) {
    exists i :: 0 <= i < |ts| && ts[i].key == key
  }

  // Another route owned this registration recently.
  predicate OwnedElsewhere(ts: seq<Tombstone>, reg: Registration, route: string) {
    exists i :: 0 <= i < |ts| && RegOf(ts[i].key) == reg && ts[i].providerRoute != "" && ts[i].providerRoute != route
  }

  // ---- The steps of mutate ----

  function KeepTombstones(ts: seq<Tombstone>, now: int): seq<Tombstone> {
    if ts == [] then [] else (if now < ts[0].retainUntil then [ts[0]] else []) + KeepTombstones(ts[1..], now)
  }

  function PruneTombstones(s: LiveState, now: int): LiveState {
    s.(tombstones := KeepTombstones(s.tombstones, now))
  }

  // Take a generation out of the current set: leave a tombstone with its route and drop the route.
  function Retire(s: LiveState, p: Publication, until: int): LiveState {
    s.(tombstones := s.tombstones + [Tombstone(p.key, RouteFor(s.routes, p.key), p.sequence, until)],
       routes := RemoveRoute(s.routes, p.key))
  }

  predicate LiveAt(p: Publication, now: int) {
    now < p.lease
  }

  function LivePublications(ps: seq<Publication>, now: int): seq<Publication> {
    if ps == [] then [] else (if LiveAt(ps[0], now) then [ps[0]] else []) + LivePublications(ps[1..], now)
  }

  // Retire every expired publication of a list, in order.
  function RetireExpired(s: LiveState, ps: seq<Publication>, now: int, retention: int): LiveState
    decreases ps
  {
    if ps == [] then s
    else RetireExpired(if LiveAt(ps[0], now) then s else Retire(s, ps[0], now + retention), ps[1..], now, retention)
  }

  function PruneExpired(s: LiveState, now: int, retention: int): LiveState {
    RetireExpired(s, s.publications, now, retention).(publications := LivePublications(s.publications, now))
  }

  function Prune(s: LiveState, now: int, retention: int): LiveState {
    PruneExpired(PruneTombstones(s, now), now, retention)
  }

  function KeyText(key: Key): seq<string> {
    [key.providerId, key.registrationId, key.generation]
  }

  // The field-by-field comparison of sort.Slice.
  predicate LessFields(a: seq<string>, b: seq<string>)
    requires |a| == |b|
  {
    if a == [] then false else if a[0] != b[0] then Less(a[0], b[0]) else LessFields(a[1..], b[1..])
  }

  predicate PublicationLess(a: Publication, b: Publication) {
    LessFields(KeyText(a.key)[..2], KeyText(b.key)[..2])
  }

  predicate RouteLess(a: Route, b: Route) {
    LessFields(KeyText(a.key), KeyText(b.key))
  }

  predicate TombstoneLess(a: Tombstone, b: Tombstone) {
    LessFields(KeyText(a.key), KeyText(b.key))
  }

  function Normalize(s: LiveState): LiveState {
    LiveState(Sort(s.publications, PublicationLess), Sort(s.routes, RouteLess), Sort(s.tombstones, TombstoneLess))
  }

  // ---- Well-formedness: what validateState demands ----

  ghost predicate WellFormed(s: LiveState) {
    && DistinctBy(s.publications, PublicationReg)
    && DistinctBy(s.routes, RouteKey)
    && DistinctBy(s.tombstones, TombstoneKey)
    && (forall r :: r in s.routes ==> r.providerRoute != "" && IsCurrent(s, r.key))
    && (forall t :: t in s.tombstones ==> !IsCurrent(s, t.key))
  }

  ghost predicate IsCurrent(s: LiveState, key: Key) {
    exists p :: p in s.publications && p.key == key
  }

  // ---- The three mutations ----

  predicate Canonical(id: string) {
    id != "" && TrimSpace(id) == id && '\0' !in id
  }

  predicate ValidBinding(b: Binding) {
    Canonical(b.key.providerId) && Canonical(b.key.registrationId) && Canonical(b.key.generation)
  }

  predicate FieldConfined(required: string, actual: string) {
    required == "" || required == actual
  }

  predicate Confined(required: Context, actual: Context) {
    && FieldConfined(required.workspaceId, actual.workspaceId) && FieldConfined(required.threadId, actual.threadId)
    && FieldConfined(required.viewId, actual.viewId) && FieldConfined(required.toolHostId, actual.toolHostId)
    && FieldConfined(required.surfaceKind, actual.surfaceKind) && FieldConfined(required.surfaceInstanceId, actual.surfaceInstanceId)
  }

  // admitLease: a lease in the future, cut to the configured maximum.
  function AdmitLease(c: Config, lease: int, now: int): Result<int, Refusal> {
    if lease <= now then Err(LeaseInPast) else Ok(if lease > now + c.maxLease then now + c.maxLease else lease)
  }

  function CommandKey(cmd: Command): Key {
    match cmd case Publish(_, p) => p.key case Renew(_, key, _, _) => key case Revoke(_, key, _) => key
  }

  function CommandSequence(cmd: Command): nat {
    match cmd case Publish(_, p) => p.sequence case Renew(_, _, q, _) => q case Revoke(_, _, q) => q
  }

  // Everything the three calls check before they touch the state.
  function Admit(c: Config, now: int, cmd: Command): Result<Command, Refusal> {
    if !ValidBinding(cmd.binding) then Err(BadBinding)
    else if cmd.binding.key != CommandKey(cmd) then Err(IdentityMismatch)
    else match cmd
      case Publish(b, p) =>
        if !Confined(b.requiredContext, p.context) then Err(IdentityMismatch) else
        var lease :- AdmitLease(c, p.lease, now);
        Ok(Publish(b, p.(lease := lease)))
      case Renew(b, key, q, wanted) =>
        var lease :- AdmitLease(c, wanted, now);
        Ok(Renew(b, key, q, lease))
      case Revoke(_, _, _) => Ok(cmd)
  }

  // The last previous entry with a reference, as a map filled in order leaves it.
  function EntryFor(entries: seq<ToolEntry>, ref: ToolRef): Option<ToolEntry> {
    if entries == [] then None
    else if entries[|entries| - 1].ref == ref then Some(entries[|entries| - 1])
    else EntryFor(entries[..|entries| - 1], ref)
  }

  // validateImmutableRevisions
  predicate Immutable(previous: seq<ToolEntry>, next: seq<ToolEntry>) {
    forall i :: 0 <= i < |next| ==>
      var was := EntryFor(previous, next[i].ref); was.None? || was.value == next[i]
  }

  function RemoveAt<T>(xs: seq<T>, i: nat): seq<T>
    requires i < |xs|
  {
    xs[..i] + xs[i + 1..]
  }

  // Publish, the part that clears the way: what is left of the current publication of the registration.
  function Displace(c: Config, s: LiveState, now: int, b: Binding, p: Publication): Result<LiveState, Refusal> {
    match FindPublication(s.publications, RegOf(p.key))
    case None => Ok(s)
    case Some(i) =>
      var current := s.publications[i];
      if RouteFor(s.routes, current.key) != b.providerRoute then Err(ForeignRoute)
      else if current.key.generation == p.key.generation then
        if !LiveAt(current, now) then Err(LeaseExpired)
        else if p.sequence <= current.sequence then Err(StaleSequence)
        else if !Immutable(current.entries, p.entries) then Err(ChangedRevision)
        else Ok(s.(publications := RemoveAt(s.publications, i), routes := RemoveRoute(s.routes, current.key)))
      else if LiveAt(current, now) && !b.generationReplacement then Err(LiveGenerationOwns)
      else Ok(Retire(s, current, now + c.retention).(publications := RemoveAt(s.publications, i)))
  }

  // Publish, the part that enters the new publication.
  function Enter(s: LiveState, b: Binding, p: Publication): Result<LiveState, Refusal> {
    if Tombstoned(s.tombstones, p.key) then Err(GenerationRetired)
    else if OwnedElsewhere(s.tombstones, RegOf(p.key), b.providerRoute) then Err(RecentForeignRoute)
    else Ok(s.(publications := s.publications + [p],
               routes := s.routes + if b.providerRoute != "" then [Route(p.key, b.providerRoute)] else []))
  }

  function Renewed(s: LiveState, now: int, b: Binding, key: Key, sequence: nat, lease: int): Result<LiveState, Refusal> {
    match FindPublication(s.publications, RegOf(key))
    case None => Err(NotCurrent)
    case Some(i) =>
      var current := s.publications[i];
      if current.key.generation != key.generation then Err(NotCurrent)
      else if RouteFor(s.routes, key) != b.providerRoute then Err(ForeignRoute)
      else if !LiveAt(current, now) then Err(LeaseExpired)
      else if sequence <= current.sequence then Err(StaleSequence)
      else Ok(s.(publications := s.publications[i := current.(sequence := sequence, lease := lease)]))
  }

  function Revoked(c: Config, s: LiveState, now: int, b: Binding, key: Key, sequence: nat): Result<LiveState, Refusal> {
    match FindPublication(s.publications, RegOf(key))
    case None => Err(NotCurrent)
    case Some(i) =>
      var current := s.publications[i];
      if current.key.generation != key.generation then Err(NotCurrent)
      else if RouteFor(s.routes, key) != b.providerRoute then Err(ForeignRoute)
      else if sequence <= current.sequence then Err(StaleSequence)
      else Ok(Retire(s, current.(sequence := sequence), now + c.retention).(publications := RemoveAt(s.publications, i)))
  }

  // The closure each call hands to mutate.
  function Change(c: Config, s: LiveState, now: int, cmd: Command): Result<LiveState, Refusal> {
    match cmd
    case Publish(b, p) =>
      var cleared :- Displace(c, s, now, b, p);
      Enter(cleared, b, p)
    case Renew(b, key, q, lease) => Renewed(s, now, b, key, q, lease)
    case Revoke(b, key, q) => Revoked(c, s, now, b, key, q)
  }

  // One attempt on a loaded state.
  ghost function Attempt(c: Config, s: LiveState, now: int, admitted: Command): Result<LiveState, Refusal> {
    if !WellFormed(s) then Err(BrokenState) else
    var changed :- Change(c, Prune(Normalize(s), now, c.retention), now, admitted);
    if !WellFormed(Normalize(changed)) then Err(BrokenState) else Ok(Normalize(changed))
  }

  ghost function Execute(c: Config, s: LiveState, now: int, cmd: Command): Result<LiveState, Refusal> {
    var admitted :- Admit(c, now, cmd);
    Attempt(c, s, now, admitted)
  }
}
