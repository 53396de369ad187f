/**
 Catalog drift (internal/controller/polariscatalog_controller.go): the comparison that decides whether a
 catalog differs from its spec, the request bodies, and what the server reads back after storing one.
 */
module Catalogs {
  import opened Wrappers
  import opened Properties

  /** The properties key under which Polaris keeps the default base location. */
  const RESERVED := "default-base-location"

  datatype StorageType = S3 | Azure | Gcs | File | Unsupported(name: string)

  /** The per-cloud blocks are copied field by field; the model keeps each block as one value. */
  datatype StorageConfig = StorageConfig(storageType: StorageType, allowedLocations: seq<string>,
      blocks: map<StorageType, string>)

  datatype Spec = Spec(defaultBaseLocation: string, properties: Props, storage: StorageConfig)

  datatype StorageBody = StorageBody(storageType: StorageType, allowedLocations: seq<string>, cloud: Option<string>)

  datatype Body = Body(properties: Props, storage: StorageBody)

  /** The server's catalog, as the management API reads it back. */
  datatype Record = Record(
    defaultBaseLocation: string, additional: Props, storageType: StorageType,
    allowedLocations: Option<seq<string>>, cloud: Option<string>)

  /** buildStorageBody: the block matching the type must be set, and the type must be known. */
  function BuildStorage(sc: StorageConfig): Option<StorageBody> {
    match sc.storageType
    case File => Some(StorageBody(File, sc.allowedLocations, None))
    case Unsupported(_) => None
    case t => if t in sc.blocks then Some(StorageBody(t, sc.allowedLocations, Some(sc.blocks[t]))) else None
  }

  /** The properties object both request bodies send. */
  function SentProperties(spec: Spec): Props {
    spec.properties[RESERVED := spec.defaultBaseLocation]
  }

  /** The loop of buildCatalogCreateBody and buildCatalogUpdateBody. */
  method BuildProperties(spec: Spec) returns (props: Props)
    ensures props == SentProperties(spec)
  {
    props := map[RESERVED := spec.defaultBaseLocation];
    var rest := spec.properties.Keys;
    while rest != {}
      invariant rest <= spec.properties.Keys
      invariant props.Keys == {RESERVED} + (spec.properties.Keys - rest)
      invariant forall k :: k in props ==> props[k] == SentProperties(spec)[k]
      decreases |rest|
    {
      var k :| k in rest;
      if k != RESERVED {
        props := props[k := spec.properties[k]];
      }
      rest := rest - {k};
    }
  }

  function BuildBody(spec: Spec): Option<Body> {
    var storage := BuildStorage(spec.storage);
    if storage.None? then None else Some(Body(SentProperties(spec), storage.value))
  }

  /** What the server returns after storing a body: the base location apart from the other properties. */
  function ReadBack(body: Body): Record
    requires RESERVED in body.properties
  {
    Record(
      body.properties[RESERVED],
      body.properties - {RESERVED},
      body.storage.storageType,
      if body.storage.allowedLocations == [] then None else Some(body.storage.allowedLocations),
      body.storage.cloud)
  }

  /** The locations the record allows; absent and empty are one. */
  function Locations(current: Record): seq<string> {
    if current.allowedLocations.Some? then current.allowedLocations.value else []
  }

  /** driftsFrom. */
  predicate Drifts(spec: Spec, current: Record) {
    || current.defaultBaseLocation != spec.defaultBaseLocation
    || current.additional != spec.properties
    || current.storageType != spec.storage.storageType
    || !SameStrings(Locations(current), spec.storage.allowedLocations)
  }

  method DriftsFrom(spec: Spec, current: Record) returns (drifts: bool)
    ensures drifts <==> Drifts(spec, current)
  {
    if current.defaultBaseLocation != spec.defaultBaseLocation {
      return true;
    }
    var same := EqualProperties(current.additional, spec.properties);
    if !same {
      return true;
    }
    if current.storageType != spec.storage.storageType {
      return true;
    }
    var currentLocs: seq<string> := [];
    if current.allowedLocations.Some? {
      currentLocs := current.allowedLocations.value;
    }
    same := EqualStringSet(currentLocs, spec.storage.allowedLocations);
    return !same;
  }

  /** The fields the operator owns agree: locations as sets, without repetition on the server side. */
  predicate OwnedFieldsAgree(spec: Spec, current: Record) {
    && current.defaultBaseLocation == spec.defaultBaseLocation
    && current.additional == spec.properties
    && current.storageType == spec.storage.storageType
    && NoDuplicates(Locations(current))
    && Elements(Locations(current)) == Elements(spec.storage.allowedLocations)
  }

  /** With the CRD's set rule on the spec's locations, no drift means agreement on every owned field. */
  lemma DriftIsDecided(spec: Spec, current: Record)
    requires NoDuplicates(spec.storage.allowedLocations)
    ensures !Drifts(spec, current) <==> OwnedFieldsAgree(spec, current)
  {
    SameStringsDecides(Locations(current), spec.storage.allowedLocations);
  }

  /**
   A create or update built from a spec repairs every drift, whatever was there before, if and only if the
   spec does not put the reserved key among its properties: the bodies drop that entry and the comparison
   keeps it.
   */
  lemma WriteRepairsDrift(spec: Spec)
    requires BuildBody(spec).Some?
    ensures Drifts(spec, ReadBack(BuildBody(spec).value)) <==> "default-base-location" in spec.properties
  {
  }

  /** The kind of storage is one whose block the spec brings, or the one that needs none. */
  predicate StorageIsComplete(sc: StorageConfig) {
    sc.storageType == File ||
    (sc.storageType in {S3, Azure, Gcs} && sc.storageType in sc.blocks)
  }

  /** A body is built exactly when the storage is complete, and carries the spec's fields and its own kind's block. */
  lemma BodyCarriesSpec(spec: Spec)
    ensures BuildBody(spec).Some? <==> StorageIsComplete(spec.storage)
    ensures BuildBody(spec).Some? ==>
              var body := BuildBody(spec).value;
              && body.storage.storageType == spec.storage.storageType
              && body.storage.allowedLocations == spec.storage.allowedLocations
              && (spec.storage.storageType == File ==> body.storage.cloud == None)
              && (spec.storage.storageType != File ==>
                   body.storage.cloud == Some(spec.storage.blocks[spec.storage.storageType]))
              && "default-base-location" in body.properties
              && body.properties["default-base-location"] == spec.defaultBaseLocation
              && forall k :: k != "default-base-location" ==>
                   (k in body.properties <==> k in spec.properties) &&
                   (k in spec.properties ==> body.properties[k] == spec.properties[k])
  {
  }

  /** There are such specs. */
  lemma SomeSpecAlwaysDrifts() returns (spec: Spec)
    ensures BuildBody(spec).Some? && Drifts(spec, ReadBack(BuildBody(spec).value))
  {
    spec := Spec("s3://b", map[RESERVED := "s3://b"], StorageConfig(File, ["s3://b"], map[]));
    WriteRepairsDrift(spec);
  }
}
