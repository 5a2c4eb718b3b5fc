/**
 The release files of the outcome catalog. A release file holds only what binds later catalogs, and of
 that only the signatures no earlier file holds; the guard G9 checks every file against the current
 catalog as if each were the full snapshot of its release.
 */
module OutcomeRelease {
  import opened Wrappers

  const SCHEMA_VERSION: string := "actingcommand.outcome-codes.release.v2"

  datatype Section = Codes | Locations

  datatype ValueSpec = ValueSpec(kind: string, required: bool)

  /** A code's or a location's signature; only a code has a category, a ladder class and values. */
  datatype Signature = Signature(
    category: Option<string>,
    ladderClass: Option<string>,
    review: string,
    status: string,
    values: map<string, ValueSpec>)

  type Table = map<string, Signature>

  /** The signatures of a catalog, or the entries of a release file. */
  datatype Snapshot = Snapshot(codes: Table, locations: Table)

  datatype ReleaseFile = ReleaseFile(schema: string, release: string, entries: Snapshot)

  function TableOf(snapshot: Snapshot, section: Section): Table {
    match section
    case Codes => snapshot.codes
    case Locations => snapshot.locations
  }

  predicate Holds(snapshot: Snapshot, section: Section, name: string, signature: Signature) {
    name in TableOf(snapshot, section) && TableOf(snapshot, section)[name] == signature
  }

  /** Whether G9 holds later catalogs to this signature: a settled or a retired entry. */
  predicate Binds(signature: Signature) {
    signature.review == "settled" || signature.status == "retired"
  }

  // ----- Writing one release file

  /** For each section and name, every signature the release files hold. */
  type Held = map<(Section, string), seq<Signature>>

  predicate HeldBy(held: Held, section: Section, name: string, signature: Signature) {
    (section, name) in held && signature in held[(section, name)]
  }

  datatype ReleaseError = WrongSchema | ReleaseExists

  ghost predicate InSomeFile(files: seq<ReleaseFile>, section: Section, name: string, signature: Signature) {
    exists i :: 0 <= i < |files| && Holds(files[i].entries, section, name, signature)
  }

  /** The entries of one section of one file, appended to what is held under their names. */
  method HoldSection(held: Held, section: Section, table: Table) returns (more: Held)
    ensures forall s, name, signature :: HeldBy(more, s, name, signature)
              <==> HeldBy(held, s, name, signature) || (s == section && name in table && table[name] == signature)
  {
    more := held;
    var names := table.Keys;
    while names != {}
      invariant names <= table.Keys
      invariant forall s, name, signature :: HeldBy(more, s, name, signature)
                  <==> || HeldBy(held, s, name, signature)
                       || (s == section && name in table && name !in names && table[name] == signature)
      decreases names
    {
      var name :| name in names;
      var already := if (section, name) in more then more[(section, name)] else [];
      more := more[(section, name) := already + [table[name]]];
      names := names - {name};
    }
  }

  /** `held_signatures`: refused when a file is of another schema. */
  method HeldSignatures(files: seq<ReleaseFile>) returns (held: Result<Held, ReleaseError>)
    ensures held.Ok? <==> forall i :: 0 <= i < |files| ==> files[i].schema == SCHEMA_VERSION
    ensures held.Ok? ==> forall section, name, signature ::
              HeldBy(held.value, section, name, signature) <==> InSomeFile(files, section, name, signature)
  {
    var found: Held := map[];
    for i := 0 to |files|
      invariant forall k :: 0 <= k < i ==> files[k].schema == SCHEMA_VERSION
      invariant forall section, name, signature ::
                  HeldBy(found, section, name, signature) <==>
                    exists k :: 0 <= k < i && Holds(files[k].entries, section, name, signature)
    {
      if files[i].schema != SCHEMA_VERSION {
        return Err(WrongSchema);
      }
      found := HoldSection(found, Codes, files[i].entries.codes);
      found := HoldSection(found, Locations, files[i].entries.locations);
    }
    held := Ok(found);
  }

  /** The binding entries whose signature is not held. */
  function NewEntries(table: Table, section: Section, held: Held): Table {
    map name | name in table && Binds(table[name]) && !HeldBy(held, section, name, table[name]) :: table[name]
  }

  function ReleaseEntries(catalog: Snapshot, held: Held): (entries: Snapshot)
    ensures forall section, name, signature :: Holds(entries, section, name, signature)
              <==> Holds(catalog, section, name, signature) && Binds(signature) && !HeldBy(held, section, name, signature)
  {
    Snapshot(NewEntries(catalog.codes, Codes, held), NewEntries(catalog.locations, Locations, held))
  }

  /** A release of `catalog` after `files`: the next file holds what binds and no file holds. */
  ghost predicate IsRelease(files: seq<ReleaseFile>, catalog: Snapshot, file: ReleaseFile) {
    && file.schema == SCHEMA_VERSION
    && (forall i :: 0 <= i < |files| ==> files[i].release != file.release)
    && forall section, name, signature :: Holds(file.entries, section, name, signature)
         <==> Holds(catalog, section, name, signature) && Binds(signature) && !InSomeFile(files, section, name, signature)
  }

  /** `main`: a release file is never overwritten. */
  method Release(files: seq<ReleaseFile>, release: string, catalog: Snapshot) returns (file: Result<ReleaseFile, ReleaseError>)
    ensures file.Ok? ==> IsRelease(files, catalog, file.value) && file.value.release == release
    ensures file.Ok? <==> && (forall i :: 0 <= i < |files| ==> files[i].release != release)
                          && (forall i :: 0 <= i < |files| ==> files[i].schema == SCHEMA_VERSION)
  {
    if exists i :: 0 <= i < |files| && files[i].release == release {
      return Err(ReleaseExists);
    }
    var held := HeldSignatures(files);
    if held.Err? {
      return Err(held.error);
    }
    file := Ok(ReleaseFile(SCHEMA_VERSION, release, ReleaseEntries(catalog, held.value)));
  }

  // ----- Every history of releases

  /** The files written by releasing these catalogs in turn, from none. */
  ghost predicate ReleaseHistory(catalogs: seq<Snapshot>, files: seq<ReleaseFile>) {
    && |files| == |catalogs|
    && forall i :: 0 <= i < |files| ==> IsRelease(files[..i], catalogs[i], files[i])
  }

  /** A signature some release bound. */
  ghost predicate BoundBySome(catalogs: seq<Snapshot>, section: Section, name: string, signature: Signature) {
    Binds(signature) && exists i :: 0 <= i < |catalogs| && Holds(catalogs[i], section, name, signature)
  }

  /** The files together hold exactly the signatures that some release bound. */
  lemma FilesHoldEveryBoundSignature(catalogs: seq<Snapshot>, files: seq<ReleaseFile>, section: Section, name: string,
                                     signature: Signature)
    requires ReleaseHistory(catalogs, files)
    ensures InSomeFile(files, section, name, signature) <==> BoundBySome(catalogs, section, name, signature)
  {
    if InSomeFile(files, section, name, signature) {
      var i :| 0 <= i < |files| && Holds(files[i].entries, section, name, signature);
      assert IsRelease(files[..i], catalogs[i], files[i]);
    }
    if BoundBySome(catalogs, section, name, signature) {
      var i :| 0 <= i < |catalogs| && Holds(catalogs[i], section, name, signature);
      assert IsRelease(files[..i], catalogs[i], files[i]);
      if InSomeFile(files[..i], section, name, signature) {
        var k :| 0 <= k < i && Holds(files[..i][k].entries, section, name, signature);
        assert Holds(files[k].entries, section, name, signature);
      }
    }
  }

  /** Each signature of a name is in one file only, even when the name's signature changes and later returns. */
  lemma EachSignatureInOneFile(catalogs: seq<Snapshot>, files: seq<ReleaseFile>, i: nat, j: nat, section: Section,
                               name: string, signature: Signature)
    requires ReleaseHistory(catalogs, files) && i < j < |files|
    ensures !(Holds(files[i].entries, section, name, signature) && Holds(files[j].entries, section, name, signature))
  {
    assert IsRelease(files[..j], catalogs[j], files[j]);
    assert files[..j][i] == files[i];
  }

  ghost predicate AllEntries(snapshot: Snapshot, check: (Section, string, Signature) -> bool) {
    forall section, name, signature :: Holds(snapshot, section, name, signature) ==> check(section, name, signature)
  }

  /** A check of each entry that asks nothing of an entry that does not bind. */
  ghost predicate AsksOnlyBinding(check: (Section, string, Signature) -> bool) {
    forall section, name, signature :: !Binds(signature) ==> check(section, name, signature)
  }

  /** Checking every file is checking every release's full snapshot. */
  lemma FilesStandForSnapshots(catalogs: seq<Snapshot>, files: seq<ReleaseFile>, check: (Section, string, Signature) -> bool)
    requires ReleaseHistory(catalogs, files) && AsksOnlyBinding(check)
    ensures (forall i :: 0 <= i < |files| ==> AllEntries(files[i].entries, check))
       <==> (forall i :: 0 <= i < |catalogs| ==> AllEntries(catalogs[i], check))
  {
    if forall i :: 0 <= i < |files| ==> AllEntries(files[i].entries, check) {
      forall i, section, name, signature | 0 <= i < |catalogs| && Holds(catalogs[i], section, name, signature)
        ensures check(section, name, signature)
      {
        if Binds(signature) {
          FilesHoldEveryBoundSignature(catalogs, files, section, name, signature);
          var k :| 0 <= k < |files| && Holds(files[k].entries, section, name, signature);
          assert AllEntries(files[k].entries, check);
        }
      }
    }
    if forall i :: 0 <= i < |catalogs| ==> AllEntries(catalogs[i], check) {
      forall i, section, name, signature | 0 <= i < |files| && Holds(files[i].entries, section, name, signature)
        ensures check(section, name, signature)
      {
        assert IsRelease(files[..i], catalogs[i], files[i]);
        assert AllEntries(catalogs[i], check);
      }
    }
  }

  // ----- The guard G9

  /** One entry of the current catalog: its values by the presence the entry writes. */
  datatype CurrentEntry = CurrentEntry(status: string, category: Option<string>, ladderClass: Option<string>,
                                       values: map<string, string>)

  /** The current catalog, with the type its key table gives each value key. */
  datatype CurrentCatalog = CurrentCatalog(codes: map<string, CurrentEntry>, locations: map<string, CurrentEntry>,
                                           keys: map<string, string>)

  function CurrentOf(catalog: CurrentCatalog, section: Section, name: string): Option<CurrentEntry> {
    var table := if section.Codes? then catalog.codes else catalog.locations;
    if name in table then Some(table[name]) else None
  }

  datatype Violation =
    | ActiveAgain(name: string)
    | Missing(name: string)
    | CategoryChanged(name: string)
    | LadderClassChanged(name: string)
    | KeyLost(name: string, key: string)
    | KeyChanged(name: string, key: string)
    | RequiredKeyGained(name: string, key: string)

  function KeyType(catalog: CurrentCatalog, key: string): Option<string> {
    if key in catalog.keys then Some(catalog.keys[key]) else None
  }

  /** Each released key keeps its type and presence, and no required key is gained. */
  predicate ValuesKept(released: map<string, ValueSpec>, current: map<string, string>, catalog: CurrentCatalog) {
    && (forall key :: key in released ==>
          && key in current && Some(released[key].kind) == KeyType(catalog, key)
          && (released[key].required <==> current[key] == "required"))
    && (forall key :: key in current && current[key] == "required" ==> key in released)
  }

  /** What G9 asks of one released entry: it depends on its own signature only. */
  predicate EntryKept(catalog: CurrentCatalog, section: Section, name: string, released: Signature) {
    var current := CurrentOf(catalog, section, name);
    && !(released.status == "retired" && current.Some? && current.value.status == "active")
    && (released.review == "settled" ==>
          && current.Some?
          && released.category == current.value.category
          && (section.Codes? ==> released.ladderClass == current.value.ladderClass)
          && ValuesKept(released.values, current.value.values, catalog))
  }

  /** `check_snapshot_values`. */
  method CheckValues(name: string, released: map<string, ValueSpec>, current: map<string, string>, catalog: CurrentCatalog)
    returns (violations: seq<Violation>)
    ensures violations == [] <==> ValuesKept(released, current, catalog)
  {
    violations := [];
    var keys := released.Keys;
    while keys != {}
      invariant keys <= released.Keys
      invariant violations == [] <==> forall key :: key in released && key !in keys ==>
                  && key in current && Some(released[key].kind) == KeyType(catalog, key)
                  && (released[key].required <==> current[key] == "required")
      decreases keys
    {
      var key :| key in keys;
      if key !in current {
        violations := violations + [KeyLost(name, key)];
      } else if Some(released[key].kind) != KeyType(catalog, key) || released[key].required != (current[key] == "required") {
        violations := violations + [KeyChanged(name, key)];
      }
      keys := keys - {key};
    }
    ghost var kept := violations == [];
    keys := current.Keys;
    while keys != {}
      invariant keys <= current.Keys
      invariant violations == [] <==>
                  kept && forall key :: key in current && key !in keys && current[key] == "required" ==> key in released
      decreases keys
    {
      var key :| key in keys;
      if current[key] == "required" && key !in released {
        violations := violations + [RequiredKeyGained(name, key)];
      }
      keys := keys - {key};
    }
  }

  method CheckEntry(catalog: CurrentCatalog, section: Section, name: string, released: Signature) returns (violations: seq<Violation>)
    ensures violations == [] <==> EntryKept(catalog, section, name, released)
  {
    violations := [];
    var current := CurrentOf(catalog, section, name);
    if released.status == "retired" && current.Some? && current.value.status == "active" {
      violations := violations + [ActiveAgain(name)];
    }
    if released.review != "settled" {
      return;
    }
    if current.None? {
      violations := violations + [Missing(name)];
      return;
    }
    if released.category != current.value.category {
      violations := violations + [CategoryChanged(name)];
    }
    if section.Codes? && released.ladderClass != current.value.ladderClass {
      violations := violations + [LadderClassChanged(name)];
    }
    var changed := CheckValues(name, released.values, current.value.values, catalog);
    violations := violations + changed;
  }

  method CheckSection(catalog: CurrentCatalog, section: Section, table: Table) returns (violations: seq<Violation>)
    ensures violations == [] <==> forall name :: name in table ==> EntryKept(catalog, section, name, table[name])
  {
    violations := [];
    var names := table.Keys;
    while names != {}
      invariant names <= table.Keys
      invariant violations == [] <==>
                  forall name :: name in table && name !in names ==> EntryKept(catalog, section, name, table[name])
      decreases names
    {
      var name :| name in names;
      var found := CheckEntry(catalog, section, name, table[name]);
      violations := violations + found;
      names := names - {name};
    }
  }

  ghost predicate SnapshotKept(catalog: CurrentCatalog, snapshot: Snapshot) {
    forall section, name, signature :: Holds(snapshot, section, name, signature) ==> EntryKept(catalog, section, name, signature)
  }

  /** `check_snapshot`, for a file or a full snapshot: no violation exactly when every entry is kept. */
  method CheckSnapshot(catalog: CurrentCatalog, snapshot: Snapshot) returns (violations: seq<Violation>)
    ensures violations == [] <==> SnapshotKept(catalog, snapshot)
  {
    var inCodes := CheckSection(catalog, Codes, snapshot.codes);
    var inLocations := CheckSection(catalog, Locations, snapshot.locations);
    violations := inCodes + inLocations;
    if SnapshotKept(catalog, snapshot) {
      assert forall name :: name in snapshot.codes ==> Holds(snapshot, Codes, name, snapshot.codes[name]);
      assert forall name :: name in snapshot.locations ==> Holds(snapshot, Locations, name, snapshot.locations[name]);
    }
  }

  /**
   Over every history of catalogs the compact files lose nothing of what G9 checks: a current catalog
   passes G9 on all release files exactly when it would on every release's full snapshot.
   */
  lemma GuardOnFilesIsGuardOnSnapshots(catalogs: seq<Snapshot>, files: seq<ReleaseFile>, catalog: CurrentCatalog)
    requires ReleaseHistory(catalogs, files)
    ensures (forall i :: 0 <= i < |files| ==> SnapshotKept(catalog, files[i].entries))
       <==> (forall i :: 0 <= i < |catalogs| ==> SnapshotKept(catalog, catalogs[i]))
  {
    var check := (section, name, signature) => EntryKept(catalog, section, name, signature);
    FilesStandForSnapshots(catalogs, files, check);
    assert forall snapshot :: SnapshotKept(catalog, snapshot) <==> AllEntries(snapshot, check);
  }
}
