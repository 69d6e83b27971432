/** Entity resolution of normalized source events (packages/db/src/normalize.ts,
    packages/db/src/repos/entity.ts). Observations are partitioned into entities by
    organization, identifier type and normalized external id. */
module Normalizer {
  import opened Common
  import opened IdentifierWords
  import opened KernelRegistry

  const GENERIC_EVENT_TYPES: seq<string> :=
    ["metric.snapshot", "pricing.snapshot", "transaction.summary",
     "inventory.snapshot", "sentiment.snapshot", "ranking.snapshot"]

  datatype Event = Event(
    id: string, org: string, eventType: string, rawType: Option<string>, externalId: Option<string>,
    metricsValid: bool, confidenceValid: bool)

  datatype NormalizeError =
    | InvalidTenantContext | UnknownEventType | MissingExternalId | InvalidMetric | InvalidConfidence | Unresolved

  /** What an event says about its entity, parsed. */
  datatype Item = Item(org: string, entityType: string, identifierType: string, value: string)

  datatype Ident = Ident(org: string, identifierType: string, value: string)
  datatype EntityKey = EntityKey(org: string, canonicalKey: string)
  datatype ObservationKey = ObservationKey(org: string, event: string)

  /** `origin` is history: the item that created the row. */
  datatype EntityRow = EntityRow(id: string, entityType: string, origin: Item)
  datatype IdentifierRow = IdentifierRow(entity: string, origin: Item)
  /** `item` is what the observation's source event names. */
  datatype ObservationRow = ObservationRow(entity: string, item: Item)

  datatype Store = Store(
    entities: map<EntityKey, EntityRow>, identifiers: map<Ident, IdentifierRow>,
    observations: map<ObservationKey, ObservationRow>)

  const Empty := Store(map[], map[], map[])

  type Hash = string -> string

  function RawType(e: Event): string { if e.rawType.Some? then e.rawType.value else "generic" }

  function ExternalId(e: Event): string { if e.externalId.Some? then e.externalId.value else "" }

  function ItemOf(e: Event): Item {
    Item(e.org, ParseEntityType(RawType(e)), IdentifierTypeOf(RawType(e)), NormalizeIdentifierValue(ExternalId(e)))
  }

  /** Two events name one entity: the same organization, the same identifier type, and external ids with
      the same words up to case. */
  predicate SameEntity(a: Event, b: Event) {
    a.org == b.org && SameIdentifierType(RawType(a), RawType(b)) && SameWords(ExternalId(a), ExternalId(b))
  }

  function IdentOf(i: Item): Ident { Ident(i.org, i.identifierType, i.value) }

  function KeyOf(i: Item): string { CanonicalEntityKey(i.entityType, SOURCE_NAMESPACE, i.identifierType, i.value) }

  function EntityKeyOf(i: Item): EntityKey { EntityKey(i.org, KeyOf(i)) }

  /** The deterministic entity id: organization and key, joined and hashed. */
  function EntityId(hash: Hash, i: Item): string { hash(Join(i.org, '|', KeyOf(i))) }

  predicate HasEntity(st: Store, org: string, id: string) {
    exists k :: k in st.entities && k.org == org && st.entities[k].id == id
  }

  predicate IdTaken(st: Store, id: string) {
    exists k :: k in st.entities && st.entities[k].id == id
  }

  /** Insert unless the key or the id is there already. */
  function InsertEntity(hash: Hash, st: Store, i: Item): Store {
    if EntityKeyOf(i) in st.entities || IdTaken(st, EntityId(hash, i)) then st
    else st.(entities := st.entities[EntityKeyOf(i) := EntityRow(EntityId(hash, i), i.entityType, i)])
  }

  datatype Resolved = Resolved(store: Store, entity: string)

  /** Find the entity by its identifier, or create both. */
  function Resolve(hash: Hash, st: Store, i: Item): Option<Resolved> {
    if IdentOf(i) in st.identifiers then
      var id := st.identifiers[IdentOf(i)].entity;
      if HasEntity(st, i.org, id) then Some(Resolved(st, id)) else None
    else
      var added := InsertEntity(hash, st, i);
      if EntityKeyOf(i) !in added.entities then None
      else
        var id := added.entities[EntityKeyOf(i)].id;
        Some(Resolved(added.(identifiers := added.identifiers[IdentOf(i) := IdentifierRow(id, i)]), id))
  }

  function Validate(e: Event): Option<NormalizeError> {
    if e.eventType !in GENERIC_EVENT_TYPES then Some(UnknownEventType)
    else if e.externalId.None? || e.externalId.value == "" then Some(MissingExternalId)
    else if !e.metricsValid then Some(InvalidMetric)
    else if !e.confidenceValid then Some(InvalidConfidence)
    else None
  }

  datatype Outcome = Outcome(store: Store, entity: string, duplicate: bool)

  function ObservationKeyOf(e: Event): ObservationKey { ObservationKey(e.org, e.id) }

  function Observe(hash: Hash, st: Store, k: ObservationKey, i: Item): Result<Outcome, NormalizeError> {
    match Resolve(hash, st, i)
    case None => Err(Unresolved)
    case Some(r) =>
      Ok(Outcome(r.store.(observations := r.store.observations[k := ObservationRow(r.entity, i)]), r.entity, false))
  }

  function Normalize(hash: Hash, st: Store, e: Event): Result<Outcome, NormalizeError> {
    var k := ObservationKeyOf(e);
    if k in st.observations then Ok(Outcome(st, st.observations[k].entity, true))
    else if Validate(e).Some? then Err(Validate(e).value)
    else Observe(hash, st, k, ItemOf(e))
  }

  predicate ContextChar(c: char) {
    'A' <= c <= 'Z' || 'a' <= c <= 'z' || '0' <= c <= '9' || c == '_' || c == ':' || c == '-'
  }

  /** The organization ids for which a tenant context is opened (packages/db/src/rls.ts). */
  predicate AdmittedOrg(org: string) {
    1 <= |org| <= 128 && forall i :: 0 <= i < |org| ==> ContextChar(org[i])
  }

  /** The worker normalizes an event inside of its tenant's context. */
  function NormalizeInContext(hash: Hash, st: Store, e: Event): Result<Outcome, NormalizeError> {
    if AdmittedOrg(e.org) then Normalize(hash, st, e) else Err(InvalidTenantContext)
  }

  /** Events that are normalized, unless they have been already. */
  predicate Accepted(e: Event) {
    AdmittedOrg(e.org) && Validate(e).None?
  }

  function After(hash: Hash, st: Store, e: Event): Store {
    match NormalizeInContext(hash, st, e) case Ok(o) => o.store case Err(_) => st
  }

  /** One event after the other; a failing one leaves the store as it was. */
  function Run(hash: Hash, st: Store, events: seq<Event>): Store {
    if events == [] then st else After(hash, Run(hash, st, events[..|events| - 1]), events[|events| - 1])
  }

  // ----- The normalizer, statement by statement -----

  class Kernel {
    var entities: map<EntityKey, EntityRow>
    var identifiers: map<Ident, IdentifierRow>
    var observations: map<ObservationKey, ObservationRow>

    function State(): Store reads this { Store(entities, identifiers, observations) }

    constructor ()
      ensures State() == Empty
    {
      entities, identifiers, observations := map[], map[], map[];
    }

    method SaveEntity(hash: Hash, i: Item) returns (id: Option<string>)
      modifies this`entities
      ensures State() == InsertEntity(hash, old(State()), i)
      ensures id == if EntityKeyOf(i) in entities then Some(entities[EntityKeyOf(i)].id) else None
    {
      var k := EntityKeyOf(i);
      if k !in entities && !IdTaken(State(), EntityId(hash, i)) {
        entities := entities[k := EntityRow(EntityId(hash, i), i.entityType, i)];
      }
      return if k in entities then Some(entities[k].id) else None;
    }

    method ResolveEntity(hash: Hash, i: Item) returns (id: Option<string>)
      modifies this`entities, this`identifiers
      ensures id.Some? <==> Resolve(hash, old(State()), i).Some?
      ensures id.Some? ==> Resolve(hash, old(State()), i).value == Resolved(State(), id.value)
      ensures id.None? ==> State() == old(State())
    {
      if IdentOf(i) in identifiers {
        var mapped := identifiers[IdentOf(i)].entity;
        return if HasEntity(State(), i.org, mapped) then Some(mapped) else None;
      }
      id := SaveEntity(hash, i);
      if id.Some? {
        identifiers := identifiers[IdentOf(i) := IdentifierRow(id.value, i)];
      }
    }

    method NormalizeSourceEvent(hash: Hash, e: Event) returns (r: Result<(string, bool), NormalizeError>)
      modifies this
      ensures r.Ok? <==> Normalize(hash, old(State()), e).Ok?
      ensures r.Ok? ==> Normalize(hash, old(State()), e).value == Outcome(State(), r.value.0, r.value.1)
      ensures r.Err? ==> r.error == Normalize(hash, old(State()), e).error && State() == old(State())
    {
      var k := ObservationKeyOf(e);
      if k in observations { return Ok((observations[k].entity, true)); }
      var invalid := Validate(e);
      if invalid.Some? { return Err(invalid.value); }
      var i := ItemOf(e);
      var id := ResolveEntity(hash, i);
      if id.None? { return Err(Unresolved); }
      observations := observations[k := ObservationRow(id.value, i)];
      return Ok((id.value, false));
    }

    method NormalizeForTenant(hash: Hash, e: Event) returns (r: Result<(string, bool), NormalizeError>)
      modifies this
      ensures r.Ok? <==> NormalizeInContext(hash, old(State()), e).Ok?
      ensures r.Ok? ==> NormalizeInContext(hash, old(State()), e).value == Outcome(State(), r.value.0, r.value.1)
      ensures r.Err? ==> r.error == NormalizeInContext(hash, old(State()), e).error
      ensures State() == After(hash, old(State()), e)
    {
      if !AdmittedOrg(e.org) { return Err(InvalidTenantContext); }
      r := NormalizeSourceEvent(hash, e);
    }
  }

  // ----- Ids tell items apart -----

  /** Types without a colon, an organization without a bar. */
  ghost predicate Plain(i: Item) {
    && Without(i.entityType, ':') && Without(i.identifierType, ':') && Without(SOURCE_NAMESPACE, ':')
    && Without(i.org, '|')
  }

  lemma KeyTellsApart(a: Item, b: Item)
    requires Plain(a) && Plain(b) && EntityKeyOf(a) == EntityKeyOf(b)
    ensures a == b
  {
    KeyInjective(
      a.entityType, SOURCE_NAMESPACE, a.identifierType, a.value,
      b.entityType, SOURCE_NAMESPACE, b.identifierType, b.value);
  }

  /** Equal entity ids come from equal items, for organizations without a bar. */
  lemma IdTellsApart(hash: Hash, a: Item, b: Item)
    requires Injective(hash) && Plain(a) && Plain(b) && EntityId(hash, a) == EntityId(hash, b)
    ensures a == b
  {
    assert Join(a.org, '|', KeyOf(a)) == Join(b.org, '|', KeyOf(b));
    JoinInjective(a.org, KeyOf(a), b.org, KeyOf(b), '|');
    KeyTellsApart(a, b);
  }

  /** What the tenant context keeps out: with a bar in its organization an item of another tenant
      could have the same entity id. */
  lemma BarsConfuseIds(hash: Hash, org: string, t: string, i: string, x: string, v: string)
    ensures var inner := Item(Join(org, '|', CanonicalEntityKey(t, SOURCE_NAMESPACE, i, x)), t, i, v);
      var outer := Item(org, t, i, Join(x, '|', CanonicalEntityKey(t, SOURCE_NAMESPACE, i, v)));
      EntityId(hash, inner) == EntityId(hash, outer) && |inner.org| > |outer.org| && !AdmittedOrg(inner.org)
  {
    var k := CanonicalEntityKey(t, SOURCE_NAMESPACE, i, v);
    var head := t + [':'] + SOURCE_NAMESPACE + [':'] + i + [':'];
    assert CanonicalEntityKey(t, SOURCE_NAMESPACE, i, x) == head + x;
    assert CanonicalEntityKey(t, SOURCE_NAMESPACE, i, Join(x, '|', k)) == head + (x + ['|'] + k);
    assert org + ['|'] + (head + (x + ['|'] + k)) == (org + ['|'] + (head + x)) + ['|'] + k;
    assert Join(org, '|', CanonicalEntityKey(t, SOURCE_NAMESPACE, i, x))[|org|] == '|';
  }

  lemma EventItemsArePlain(e: Event)
    requires AdmittedOrg(e.org)
    ensures Plain(ItemOf(e))
  {
    WithoutByIndex(e.org, '|');
    var raw := RawType(e);
    ParsedTypesArePlain(raw, ':');
    var t := ParseEntityType(raw);
    ParsedTypesArePlain(if t == "generic" then raw else t, ':');
  }

  lemma SameIdentifierMeansSameEntity(a: Event, b: Event)
    ensures IdentOf(ItemOf(a)) == IdentOf(ItemOf(b)) <==> SameEntity(a, b)
  {
    IdentifierTypesAgree(RawType(a), RawType(b));
    NormalizeAlike(ExternalId(a), ExternalId(b));
  }

  /** The text an entity id is the hash of. */
  lemma IdText(hash: Hash, i: Item)
    ensures EntityId(hash, i) == hash(i.org + "|" + i.entityType + ":ingest:" + i.identifierType + ":" + i.value)
  {
    assert Join(i.org, '|', KeyOf(i))
        == i.org + "|" + i.entityType + ":ingest:" + i.identifierType + ":" + i.value;
  }

  /** Ids of stored entities are unique. */
  ghost predicate IdsUnique(st: Store) {
    forall k, l :: k in st.entities && l in st.entities && st.entities[k].id == st.entities[l].id ==> k == l
  }

  /** From any store, sound or not, an insert never stores an id twice and never replaces a row. */
  lemma InsertKeepsIds(hash: Hash, st: Store, i: Item)
    requires IdsUnique(st)
    ensures var st' := InsertEntity(hash, st, i);
      && IdsUnique(st') && st'.identifiers == st.identifiers && st'.observations == st.observations
      && (forall k :: k in st.entities ==> k in st'.entities && st'.entities[k] == st.entities[k])
      && (EntityKeyOf(i) in st'.entities <==> EntityKeyOf(i) in st.entities || !IdTaken(st, EntityId(hash, i)))
  {
  }

  /** What an event says of its entity, by its raw type and external id. */
  lemma ItemByWords(e: Event)
    ensures var raw, i := (if e.rawType.Some? then e.rawType.value else "generic"), ItemOf(e);
      && i.org == e.org
      && i.entityType in {"sku", "product", "listing", "account", "item", "generic", "tcg_printing"}
      && (forall word :: word in {"sku", "product", "listing", "account", "item", "tcg_printing"} ==>
            (i.entityType == word <==> IsWord(raw, word)))
      && i.identifierType == (if IsWord(raw, "sku") then "sku" else if KeptType(raw) then raw else "generic_id")
      && SameWords(i.value, if e.externalId.Some? then e.externalId.value else "")
      && NormalizeIdentifierValue(i.value) == i.value
  {
    EntityTypeByWord(RawType(e));
    IdentifierTypeByWord(RawType(e));
    NormalizeIsIdempotent(ExternalId(e));
    NormalizeAlike(ItemOf(e).value, ExternalId(e));
  }

  // ----- The store's invariant -----

  ghost predicate IdentifierSound(hash: Hash, st: Store, ident: Ident) {
    ident in st.identifiers ==>
      var origin := st.identifiers[ident].origin;
      && Plain(origin) && IdentOf(origin) == ident
      && st.identifiers[ident].entity == EntityId(hash, origin)
      && EntityKeyOf(origin) in st.entities && st.entities[EntityKeyOf(origin)].origin == origin
  }

  ghost predicate EntitySound(hash: Hash, st: Store, k: EntityKey) {
    k in st.entities ==>
      var row := st.entities[k];
      && Plain(row.origin) && EntityKeyOf(row.origin) == k
      && row.id == EntityId(hash, row.origin) && row.entityType == row.origin.entityType
      && IdentOf(row.origin) in st.identifiers
  }

  ghost predicate ObservationSound(st: Store, k: ObservationKey) {
    k in st.observations ==>
      var row := st.observations[k];
      IdentOf(row.item) in st.identifiers && row.entity == st.identifiers[IdentOf(row.item)].entity
  }

  ghost predicate Sound(hash: Hash, st: Store) {
    && (forall i :: IdentifierSound(hash, st, i))
    && (forall k :: EntitySound(hash, st, k))
    && (forall k :: ObservationSound(st, k))
  }

  /** In a sound store a new identifier finds neither its key nor its id in use. */
  lemma NewItemIsFree(hash: Hash, st: Store, i: Item)
    requires Injective(hash) && Sound(hash, st) && Plain(i) && IdentOf(i) !in st.identifiers
    ensures EntityKeyOf(i) !in st.entities && !IdTaken(st, EntityId(hash, i))
  {
    if EntityKeyOf(i) in st.entities {
      assert EntitySound(hash, st, EntityKeyOf(i));
      KeyTellsApart(i, st.entities[EntityKeyOf(i)].origin);
      assert false;
    }
    if IdTaken(st, EntityId(hash, i)) {
      var k :| k in st.entities && st.entities[k].id == EntityId(hash, i);
      assert EntitySound(hash, st, k);
      IdTellsApart(hash, i, st.entities[k].origin);
      assert false;
    }
  }

  lemma KnownItemResolves(hash: Hash, st: Store, i: Item)
    requires Sound(hash, st) && IdentOf(i) in st.identifiers
    ensures Resolve(hash, st, i) == Some(Resolved(st, st.identifiers[IdentOf(i)].entity))
  {
    assert IdentifierSound(hash, st, IdentOf(i));
    var k := EntityKeyOf(st.identifiers[IdentOf(i)].origin);
    assert EntitySound(hash, st, k);
    assert k in st.entities && k.org == i.org && st.entities[k].id == st.identifiers[IdentOf(i)].entity;
  }

  function WithNew(hash: Hash, st: Store, i: Item): Store {
    Store(st.entities[EntityKeyOf(i) := EntityRow(EntityId(hash, i), i.entityType, i)],
          st.identifiers[IdentOf(i) := IdentifierRow(EntityId(hash, i), i)], st.observations)
  }

  lemma NewItemResolves(hash: Hash, st: Store, i: Item)
    requires Injective(hash) && Sound(hash, st) && Plain(i) && IdentOf(i) !in st.identifiers
    ensures Resolve(hash, st, i) == Some(Resolved(WithNew(hash, st, i), EntityId(hash, i)))
  {
    NewItemIsFree(hash, st, i);
  }

  lemma NewItemKeepsSound(hash: Hash, st: Store, i: Item)
    requires Injective(hash) && Sound(hash, st) && Plain(i) && IdentOf(i) !in st.identifiers
    ensures Sound(hash, WithNew(hash, st, i))
  {
    var st' := WithNew(hash, st, i);
    NewItemIsFree(hash, st, i);
    forall x ensures IdentifierSound(hash, st', x) { assert IdentifierSound(hash, st, x); }
    forall k ensures EntitySound(hash, st', k) { assert EntitySound(hash, st, k); }
    forall k ensures ObservationSound(st', k) { assert ObservationSound(st, k); }
  }

  lemma ResolveKeepsSound(hash: Hash, st: Store, i: Item)
    requires Injective(hash) && Sound(hash, st) && Plain(i)
    ensures Resolve(hash, st, i).Some?
    ensures var r := Resolve(hash, st, i).value;
      && Sound(hash, r.store) && r.store.observations == st.observations
      && IdentOf(i) in r.store.identifiers && r.entity == r.store.identifiers[IdentOf(i)].entity
  {
    if IdentOf(i) in st.identifiers {
      KnownItemResolves(hash, st, i);
    } else {
      NewItemResolves(hash, st, i);
      NewItemKeepsSound(hash, st, i);
    }
  }

  lemma ObservingKeepsSound(hash: Hash, st: Store, k: ObservationKey, i: Item, entity: string)
    requires Sound(hash, st) && IdentOf(i) in st.identifiers && entity == st.identifiers[IdentOf(i)].entity
    ensures Sound(hash, st.(observations := st.observations[k := ObservationRow(entity, i)]))
  {
    var st' := st.(observations := st.observations[k := ObservationRow(entity, i)]);
    forall x ensures IdentifierSound(hash, st', x) { assert IdentifierSound(hash, st, x); }
    forall x ensures EntitySound(hash, st', x) { assert EntitySound(hash, st, x); }
    forall x ensures ObservationSound(st', x) { assert ObservationSound(st, x); }
  }

  lemma ObserveSucceeds(hash: Hash, st: Store, k: ObservationKey, i: Item)
    requires Injective(hash) && Sound(hash, st) && Plain(i)
    ensures Observe(hash, st, k, i).Ok? && Sound(hash, Observe(hash, st, k, i).value.store)
    ensures var o := Observe(hash, st, k, i).value;
      && o.store.observations == st.observations[k := ObservationRow(o.entity, i)]
  {
    ResolveKeepsSound(hash, st, i);
    var r := Resolve(hash, st, i).value;
    ObservingKeepsSound(hash, r.store, k, i, r.entity);
  }

  lemma ValidInSoundStore(hash: Hash, st: Store, e: Event)
    requires Injective(hash) && Sound(hash, st)
    ensures NormalizeInContext(hash, st, e).Ok?
      <==> AdmittedOrg(e.org) && (ObservationKeyOf(e) in st.observations || Validate(e).None?)
    ensures Sound(hash, After(hash, st, e))
  {
    if AdmittedOrg(e.org) && ObservationKeyOf(e) !in st.observations && Validate(e).None? {
      EventItemsArePlain(e);
      ObserveSucceeds(hash, st, ObservationKeyOf(e), ItemOf(e));
    }
  }

  /** A tenant's event of a generic type, with an external id and valid metrics and confidence. */
  ghost predicate WellFormed(e: Event) {
    && e.eventType in {
      "metric.snapshot", "pricing.snapshot", "transaction.summary", "inventory.snapshot", "sentiment.snapshot",
      "ranking.snapshot"}
    && e.externalId !in {None, Some("")} && e.metricsValid && e.confidenceValid
  }

  lemma KnownEventTypes(eventType: string)
    ensures eventType in GENERIC_EVENT_TYPES <==> eventType in {
      "metric.snapshot", "pricing.snapshot", "transaction.summary", "inventory.snapshot", "sentiment.snapshot",
      "ranking.snapshot"}
  {
    var types := GENERIC_EVENT_TYPES;
    assert types[0] == "metric.snapshot" && types[1] == "pricing.snapshot" && types[2] == "transaction.summary"
      && types[3] == "inventory.snapshot" && types[4] == "sentiment.snapshot" && types[5] == "ranking.snapshot";
  }

  lemma GivenExternalId(e: Event)
    ensures e.externalId in {None, Some("")} <==> e.externalId.None? || e.externalId.value == ""
  {
    if e.externalId.Some? && e.externalId.value == "" { assert e.externalId == Some(""); }
  }

  lemma ValidMeansWellFormed(e: Event)
    ensures Validate(e).None? <==> WellFormed(e)
  {
    KnownEventTypes(e.eventType);
    GivenExternalId(e);
  }

  /** In a sound store an event is normalized exactly when its organization has a tenant context and it
      is well formed or already observed. */
  lemma ValidEventsNormalize(hash: Hash, st: Store, e: Event)
    requires Injective(hash) && Sound(hash, st)
    ensures NormalizeInContext(hash, st, e).Ok? <==>
      && 1 <= |e.org| <= 128
      && (forall i :: 0 <= i < |e.org| ==>
            var c := e.org[i];
            'A' <= c <= 'Z' || 'a' <= c <= 'z' || '0' <= c <= '9' || c == '_' || c == ':' || c == '-')
      && (ObservationKeyOf(e) in st.observations || WellFormed(e))
    ensures Sound(hash, After(hash, st, e))
  {
    ValidInSoundStore(hash, st, e);
    ValidMeansWellFormed(e);
  }

  /** Why an event that was not observed yet is refused in a sound store: each error exactly when it is
      the first that applies. */
  lemma RefusalsExactly(hash: Hash, st: Store, e: Event)
    requires Injective(hash) && Sound(hash, st) && ObservationKeyOf(e) !in st.observations
    ensures var r := NormalizeInContext(hash, st, e);
      var known := e.eventType in {
        "metric.snapshot", "pricing.snapshot", "transaction.summary", "inventory.snapshot", "sentiment.snapshot",
        "ranking.snapshot"};
      var named := known && e.externalId !in {None, Some("")};
      && (r == Err(InvalidTenantContext) <==> !AdmittedOrg(e.org))
      && (AdmittedOrg(e.org) ==>
            && (r == Err(UnknownEventType) <==> !known)
            && (r == Err(MissingExternalId) <==> known && !named)
            && (r == Err(InvalidMetric) <==> named && !e.metricsValid)
            && (r == Err(InvalidConfidence) <==> named && e.metricsValid && !e.confidenceValid)
            && r != Err(Unresolved))
  {
    ValidInSoundStore(hash, st, e);
    KnownEventTypes(e.eventType);
    GivenExternalId(e);
  }

  lemma {:induction false} RunsKeepSound(hash: Hash, events: seq<Event>)
    requires Injective(hash)
    ensures Sound(hash, Run(hash, Empty, events))
  {
    if events != [] {
      RunsKeepSound(hash, events[..|events| - 1]);
      ValidInSoundStore(hash, Run(hash, Empty, events[..|events| - 1]), events[|events| - 1]);
    }
  }

  /** Two observations share an entity exactly when their items share an identifier. */
  lemma SharedEntityMeansSharedIdentifier(hash: Hash, st: Store, a: ObservationKey, b: ObservationKey)
    requires Injective(hash) && Sound(hash, st) && a in st.observations && b in st.observations
    ensures st.observations[a].entity == st.observations[b].entity
      <==> IdentOf(st.observations[a].item) == IdentOf(st.observations[b].item)
  {
    assert ObservationSound(st, a) && ObservationSound(st, b);
    var ia, ib := IdentOf(st.observations[a].item), IdentOf(st.observations[b].item);
    assert IdentifierSound(hash, st, ia) && IdentifierSound(hash, st, ib);
    if st.observations[a].entity == st.observations[b].entity {
      IdTellsApart(hash, st.identifiers[ia].origin, st.identifiers[ib].origin);
    }
  }

  // ----- What is observed -----

  lemma StepKeepsObservation(hash: Hash, st: Store, e: Event, k: ObservationKey)
    requires k in st.observations
    ensures k in After(hash, st, e).observations && After(hash, st, e).observations[k] == st.observations[k]
  {
  }

  lemma {:induction false} RunKeepsObservation(hash: Hash, st: Store, events: seq<Event>, k: ObservationKey)
    requires k in st.observations
    ensures k in Run(hash, st, events).observations && Run(hash, st, events).observations[k] == st.observations[k]
  {
    if events != [] {
      RunKeepsObservation(hash, st, events[..|events| - 1], k);
      StepKeepsObservation(hash, Run(hash, st, events[..|events| - 1]), events[|events| - 1], k);
    }
  }

  /** Normalizing an event again, after whatever else, changes nothing and names the same entity. */
  lemma {:induction false} RenormalizingChangesNothing(hash: Hash, st: Store, e: Event, more: seq<Event>)
    requires NormalizeInContext(hash, st, e).Ok?
    ensures var first := NormalizeInContext(hash, st, e).value;
      var later := Run(hash, first.store, more);
      NormalizeInContext(hash, later, e) == Ok(Outcome(later, first.entity, true))
  {
    var first := NormalizeInContext(hash, st, e).value;
    assert ObservationKeyOf(e) in first.store.observations;
    assert first.store.observations[ObservationKeyOf(e)].entity == first.entity;
    RunKeepsObservation(hash, first.store, more, ObservationKeyOf(e));
  }

  /** Redeliveries aside, an event id belongs to one event. */
  ghost predicate IdsIdentify(events: seq<Event>) {
    forall i, j :: 0 <= i < |events| && 0 <= j < |events| && ObservationKeyOf(events[i]) == ObservationKeyOf(events[j])
      ==> events[i] == events[j]
  }

  lemma InvalidObservesNothing(hash: Hash, st: Store, e: Event)
    requires !Accepted(e)
    ensures After(hash, st, e) == st
  {
  }

  lemma ValidObserves(hash: Hash, st: Store, e: Event, row: ObservationRow)
    requires Injective(hash) && Sound(hash, st) && Accepted(e)
    requires ObservationKeyOf(e) !in st.observations
    requires Observe(hash, st, ObservationKeyOf(e), ItemOf(e)).Ok?
    requires row == ObservationRow(Observe(hash, st, ObservationKeyOf(e), ItemOf(e)).value.entity, ItemOf(e))
    ensures After(hash, st, e).observations == st.observations[ObservationKeyOf(e) := row]
  {
    EventItemsArePlain(e);
    ObserveSucceeds(hash, st, ObservationKeyOf(e), ItemOf(e));
  }

  lemma StepObserved(hash: Hash, st: Store, e: Event, k: ObservationKey)
    requires Injective(hash) && Sound(hash, st)
    requires ObservationKeyOf(e) in st.observations
      ==> st.observations[ObservationKeyOf(e)].item == ItemOf(e) && Accepted(e)
    ensures k in After(hash, st, e).observations <==> k in st.observations || (k == ObservationKeyOf(e) && Accepted(e))
    ensures k == ObservationKeyOf(e) && Accepted(e) ==> After(hash, st, e).observations[k].item == ItemOf(e)
  {
    if !Accepted(e) {
      InvalidObservesNothing(hash, st, e);
    } else if ObservationKeyOf(e) !in st.observations {
      EventItemsArePlain(e);
      ObserveSucceeds(hash, st, ObservationKeyOf(e), ItemOf(e));
      var entity := Observe(hash, st, ObservationKeyOf(e), ItemOf(e)).value.entity;
      ValidObserves(hash, st, e, ObservationRow(entity, ItemOf(e)));
    }
  }

  /** Exactly the valid events of admitted organizations are observed, each with what it names. */
  lemma {:induction false} ObservedAreValid(hash: Hash, events: seq<Event>, i: nat)
    requires Injective(hash) && IdsIdentify(events) && i < |events|
    ensures var obs := Run(hash, Empty, events).observations;
      && (ObservationKeyOf(events[i]) in obs <==> Accepted(events[i]))
      && (ObservationKeyOf(events[i]) in obs ==> obs[ObservationKeyOf(events[i])].item == ItemOf(events[i]))
  {
    assert events[..|events|] == events;
    PrefixObserved(hash, events, |events|, i);
  }

  /** An observation under an event's key is of that event, and the event was accepted. */
  ghost predicate ObservedRightly(st: Store, e: Event) {
    ObservationKeyOf(e) in st.observations ==>
      st.observations[ObservationKeyOf(e)].item == ItemOf(e) && Accepted(e)
  }

  lemma StepObservesRightly(hash: Hash, st: Store, e: Event, x: Event)
    requires Injective(hash) && Sound(hash, st) && ObservedRightly(st, e) && ObservedRightly(st, x)
    requires ObservationKeyOf(x) == ObservationKeyOf(e) ==> x == e
    ensures ObservedRightly(After(hash, st, e), x)
    ensures ObservationKeyOf(x) in After(hash, st, e).observations
      <==> ObservationKeyOf(x) in st.observations || (x == e && Accepted(e))
  {
    StepObserved(hash, st, e, ObservationKeyOf(x));
    if ObservationKeyOf(x) in st.observations {
      StepKeepsObservation(hash, st, e, ObservationKeyOf(x));
    }
  }

  lemma RunOneMore(hash: Hash, events: seq<Event>, n: nat)
    requires n < |events|
    ensures Run(hash, Empty, events[..n + 1]) == After(hash, Run(hash, Empty, events[..n]), events[n])
  {
    assert events[..n + 1][..n] == events[..n];
  }

  ghost predicate PrefixRight(hash: Hash, events: seq<Event>, n: nat, i: nat)
    requires n <= |events| && i < |events|
  {
    var st := Run(hash, Empty, events[..n]);
    && ObservedRightly(st, events[i])
    && (Accepted(events[i]) && i < n ==> ObservationKeyOf(events[i]) in st.observations)
  }

  lemma PrefixStep(hash: Hash, events: seq<Event>, n: nat, i: nat)
    requires Injective(hash) && IdsIdentify(events) && n < |events| && i < |events|
    requires PrefixRight(hash, events, n, i) && PrefixRight(hash, events, n, n)
    ensures PrefixRight(hash, events, n + 1, i)
  {
    RunsKeepSound(hash, events[..n]);
    RunOneMore(hash, events, n);
    StepObservesRightly(hash, Run(hash, Empty, events[..n]), events[n], events[i]);
  }

  lemma {:induction false} PrefixObserved(hash: Hash, events: seq<Event>, n: nat, i: nat)
    requires Injective(hash) && IdsIdentify(events) && n <= |events| && i < |events|
    ensures PrefixRight(hash, events, n, i)
  {
    if n == 0 {
      assert events[..0] == [];
    } else {
      PrefixObserved(hash, events, n - 1, i);
      PrefixObserved(hash, events, n - 1, n - 1);
      PrefixStep(hash, events, n - 1, i);
    }
  }

  /** Normalizing any sequence of events, redeliveries included, partitions the accepted ones into
      entities exactly by organization, identifier type and the words of the external id up to case. */
  lemma {:induction false} EventsPartitionByIdentifier(hash: Hash, events: seq<Event>, i: nat, j: nat)
    requires Injective(hash) && IdsIdentify(events) && i < |events| && j < |events|
    requires Accepted(events[i]) && Accepted(events[j])
    ensures var obs := Run(hash, Empty, events).observations;
      var a, b := ObservationKeyOf(events[i]), ObservationKeyOf(events[j]);
      && a in obs && b in obs
      && (obs[a].entity == obs[b].entity <==> SameEntity(events[i], events[j]))
  {
    ObservedAreValid(hash, events, i);
    ObservedAreValid(hash, events, j);
    RunsKeepSound(hash, events);
    SharedEntityMeansSharedIdentifier(
      hash, Run(hash, Empty, events), ObservationKeyOf(events[i]), ObservationKeyOf(events[j]));
    SameIdentifierMeansSameEntity(events[i], events[j]);
  }

  /** The partition does not depend on the order, but the entity does: its id and type come from
      whichever item with the identifier arrived first. */
  lemma FirstItemNamesTheEntity(hash: Hash, a: Item, b: Item, ka: ObservationKey, kb: ObservationKey)
    requires Injective(hash) && Plain(a) && Plain(b) && IdentOf(a) == IdentOf(b) && a.entityType != b.entityType
    ensures Observe(hash, Empty, ka, a).Ok? && Observe(hash, Empty, kb, b).Ok?
    ensures Observe(hash, Empty, ka, a).value.entity == EntityId(hash, a) != EntityId(hash, b)
    ensures var second := Observe(hash, Observe(hash, Empty, ka, a).value.store, kb, b);
      second.Ok? && second.value.entity == EntityId(hash, a)
  {
    assert Sound(hash, Empty);
    ObserveSucceeds(hash, Empty, ka, a);
    ObserveSucceeds(hash, Empty, kb, b);
    NewItemResolves(hash, Empty, a);
    var st := Observe(hash, Empty, ka, a).value.store;
    KnownItemResolves(hash, st, b);
    if EntityId(hash, a) == EntityId(hash, b) { IdTellsApart(hash, a, b); }
  }
}
