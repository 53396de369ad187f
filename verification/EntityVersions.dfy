/**
 Versioned entities: what a Polaris server keeps under each name, how other clients may change it between a get
 and an update, and how the update's version is compared (updateCatalog, updateRole and updatePrincipal under
 internal/controller). A write raises the version by one; versions start at 1.
 */
module EntityVersions {
  import opened Wrappers

  type Version = v: int | 1 <= v witness 1

  datatype Entity<T> = Entity(value: T, version: Version)

  /** What another client does to an entity. A recreated entity gets some version, which the server chooses. */
  datatype Write<T> = Overwrite(value: T) | Remove | Recreate(value: T, version: Version)

  function Outside<T>(e: Option<Entity<T>>, w: Write<T>): Option<Entity<T>> {
    match w
    case Overwrite(value) => if e.Some? then Some(Entity(value, e.value.version + 1)) else None
    case Remove => None
    case Recreate(value, version) => if e.None? then Some(Entity(value, version)) else e
  }

  function OutsideAll<T>(e: Option<Entity<T>>, writes: seq<Write<T>>): Option<Entity<T>>
    decreases |writes|
  {
    if writes == [] then e else OutsideAll(Outside(e, writes[0]), writes[1..])
  }

  datatype Verdict = Accepted | VersionMismatch | NotFound

  /** An update request; None is a request without the version field. */
  function Compare<T>(e: Option<Entity<T>>, sent: Option<nat>): Verdict {
    if e.None? then NotFound
    else if sent.Some? && sent.value != e.value.version then VersionMismatch
    else Accepted
  }

  /** The version a get reported, if it reported one. */
  function Reported<T>(e: Entity<T>, reported: bool): Option<nat> {
    if reported then Some(e.version) else None
  }

  /** Catalog updates leave the field out when the get reported no version: a pointer with omitempty. */
  function CatalogSends(reported: Option<nat>): Option<nat> {
    reported
  }

  /** Role and principal updates always carry the field, a plain integer: zero when the get reported no version. */
  function PlainSends(reported: Option<nat>): Option<nat> {
    Some(if reported.Some? then reported.value else 0)
  }

  // ---- The writes that change something ----

  predicate Effective<T>(e: Option<Entity<T>>, w: Write<T>) {
    if e.Some? then !w.Recreate? else w.Recreate?
  }

  /** Some write in between took effect. */
  predicate AnyEffective<T>(e: Option<Entity<T>>, writes: seq<Write<T>>)
    decreases |writes|
  {
    writes != [] && (Effective(e, writes[0]) || AnyEffective(Outside(e, writes[0]), writes[1..]))
  }

  function Highest<T>(used: nat, e: Option<Entity<T>>): nat {
    if e.Some? && e.value.version > used then e.value.version else used
  }

  /** The server never gives a version twice: recreation starts above every version used so far. */
  predicate VersionsRise<T>(e: Option<Entity<T>>, used: nat, writes: seq<Write<T>>)
    decreases |writes|
  {
    writes == [] ||
    var next := Outside(e, writes[0]);
    && (e.None? && next.Some? ==> next.value.version > used)
    && VersionsRise(next, Highest(used, next), writes[1..])
  }

  lemma {:induction false} NothingEffective<T>(e: Option<Entity<T>>, writes: seq<Write<T>>)
    requires !AnyEffective(e, writes)
    ensures OutsideAll(e, writes) == e
    decreases |writes|
  {
    if writes != [] {
      NothingEffective(e, writes[1..]);
    }
  }

  lemma {:induction false} RisenVersionsStayAbove<T>(e: Option<Entity<T>>, used: nat, writes: seq<Write<T>>, read: nat)
    requires read <= used && VersionsRise(e, used, writes)
    requires e.Some? ==> read < e.value.version <= used
    ensures OutsideAll(e, writes).Some? ==> OutsideAll(e, writes).value.version > read
    decreases |writes|
  {
    if writes != [] {
      var next := Outside(e, writes[0]);
      RisenVersionsStayAbove(next, Highest(used, next), writes[1..], read);
    }
  }

  lemma {:induction false} EffectiveWritesRaise<T>(e: Entity<T>, writes: seq<Write<T>>)
    requires VersionsRise(Some(e), e.version, writes) && AnyEffective(Some(e), writes)
    ensures OutsideAll(Some(e), writes).Some? ==> OutsideAll(Some(e), writes).value.version > e.version
    decreases |writes|
  {
    var next := Outside(Some(e), writes[0]);
    if Effective(Some(e), writes[0]) {
      RisenVersionsStayAbove(next, Highest(e.version, next), writes[1..], e.version);
    } else {
      EffectiveWritesRaise(e, writes[1..]);
    }
  }

  /**
   No lost update, on the server's side. If versions only rise, an update that carries the version read is accepted
   if and only if no write in between took effect, and then what it replaces is what was read.
   */
  lemma NoLostUpdate<T>(read: Entity<T>, writes: seq<Write<T>>)
    requires VersionsRise(Some(read), read.version, writes)
    ensures var now := OutsideAll(Some(read), writes);
            && (Compare(now, Some(read.version)) == Accepted <==> !AnyEffective(Some(read), writes))
            && (Compare(now, Some(read.version)) == Accepted ==> now == Some(read))
  {
    if AnyEffective(Some(read), writes) {
      EffectiveWritesRaise(read, writes);
    } else {
      NothingEffective(Some(read), writes);
    }
  }

  lemma {:induction false} OverwritesRise<T>(e: Entity<T>, writes: seq<Write<T>>)
    requires forall w :: w in writes ==> w.Overwrite?
    ensures VersionsRise(Some(e), e.version, writes)
    ensures AnyEffective(Some(e), writes) <==> writes != []
    decreases |writes|
  {
    if writes != [] {
      assert writes[0] in writes;
      OverwritesRise(Entity(writes[0].value, e.version + 1), writes[1..]);
    }
  }

  /** While nobody removes the entity there is nothing to assume of the server. */
  lemma NoLostUpdateWhileItLives<T>(read: Entity<T>, writes: seq<Write<T>>)
    requires forall w :: w in writes ==> w.Overwrite?
    ensures Compare(OutsideAll(Some(read), writes), Some(read.version)) == Accepted <==> writes == []
  {
    OverwritesRise(read, writes);
    NoLostUpdate(read, writes);
  }

  /** What stands then is the last write by somebody else. */
  lemma {:induction false} LastWriteStands<T>(read: Entity<T>, writes: seq<Write<T>>)
    requires writes != [] && forall w :: w in writes ==> w.Overwrite?
    ensures OutsideAll(Some(read), writes) == Some(Entity(writes[|writes| - 1].value, read.version + |writes|))
    decreases |writes|
  {
    var next := Entity(writes[0].value, read.version + 1);
    assert writes[0] in writes;
    if |writes| == 1 {
      assert OutsideAll(Some(read), writes) == OutsideAll(Some(next), []);
    } else {
      LastWriteStands(next, writes[1..]);
    }
  }

  /** A request that carries zero is never accepted. */
  lemma ZeroIsRefused<T>(e: Option<Entity<T>>)
    ensures Compare(e, PlainSends(None)) != Accepted
  {
  }
}
