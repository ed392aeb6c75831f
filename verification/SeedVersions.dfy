/**
 The version manifest of the seed generator and the upsert its seeds end in.
 A version stands for one content only along a linear history; only what is
 hashed is content, and the upsert merges two columns instead of taking them.
 */
module SeedVersions {
  import opened Prelude

  /** The columns a seed overwrites as they are; `rest` are those that no rule below speaks of. */
  datatype Columns = Columns(tier: string, title: string, description: string, body: string, rest: string)

  datatype Atom = Atom(columns: Columns, mcpExposed: Option<bool>, reviewedAt: Option<string>)

  const COMMUNITY := "community"

  predicate IsCommunity(a: Atom) {
    a.columns.tier == COMMUNITY
  }

  /** What is hashed: a community skill with its card and review, any other by its body. */
  datatype Hashed =
    | BodyText(body: string)
    | Card(body: string, title: string, description: string, mcpExposed: Option<bool>, reviewedAt: Option<string>)

  function Content(a: Atom): Hashed {
    if IsCommunity(a) then Card(a.columns.body, a.columns.title, a.columns.description, a.mcpExposed, a.reviewedAt)
    else BodyText(a.columns.body)
  }

  /** SHA-256 never collides. */
  datatype Hash = Sha256(content: Hashed)

  /** The hash of a community skill covers its card and review, that of any other atom its body. */
  ghost predicate IsHashOf(h: Hash, a: Atom) {
    match h.content
    case BodyText(body) => a.columns.tier != "community" && body == a.columns.body
    case Card(body, title, description, mcpExposed, reviewedAt) =>
      && a.columns.tier == "community"
      && body == a.columns.body && title == a.columns.title && description == a.columns.description
      && mcpExposed == a.mcpExposed && reviewedAt == a.reviewedAt
  }

  /** Two atoms have one content exactly when these columns agree. */
  lemma SameContentIff(a: Atom, b: Atom)
    ensures IsHashOf(Sha256(Content(a)), a)
    ensures Content(a) == Content(b) <==>
            && a.columns.body == b.columns.body
            && (a.columns.tier == "community" <==> b.columns.tier == "community")
            && (a.columns.tier == "community" ==>
                  && a.columns.title == b.columns.title && a.columns.description == b.columns.description
                  && a.mcpExposed == b.mcpExposed && a.reviewedAt == b.reviewedAt)
  {
  }

  lemma HashDecides(h: Hash, a: Atom)
    ensures h == Sha256(Content(a)) <==> IsHashOf(h, a)
  {
  }

  datatype Entry = Entry(hash: Hash, version: nat)

  type Manifest = map<string, Entry>
  type Disk = map<string, Atom>

  datatype SeedRow = SeedRow(version: nat, atom: Atom)

  /** The rows upserted, and the ids whose rows are switched off afterwards. */
  datatype Seed = Seed(rows: map<string, SeedRow>, off: set<string>)

  /** What a run finds: the atoms meant for agents, and the ids of those that are not. */
  datatype Checkout = Checkout(disk: Disk, developerOnly: set<string>)

  /** An atom as discovered: its id and what it holds. */
  datatype Found = Found(id: string, atom: Atom)

  // ----- one run -----

  ghost predicate Current(manifest: Manifest, disk: Disk) {
    manifest.Keys == disk.Keys && forall id :: id in disk ==> manifest[id].hash == Sha256(Content(disk[id]))
  }

  /** Changed atoms are bumped, new ones start at 1. */
  function VersionOf(manifest: Manifest, id: string, atom: Atom): nat {
    if id !in manifest then 1
    else if manifest[id].hash == Sha256(Content(atom)) then manifest[id].version
    else manifest[id].version + 1
  }

  ghost function ManifestAfter(manifest: Manifest, disk: Disk): Manifest {
    map id | id in disk :: Entry(Sha256(Content(disk[id])), VersionOf(manifest, id, disk[id]))
  }

  ghost function RowsFor(manifest: Manifest, disk: Disk): map<string, SeedRow> {
    map id | id in disk :: SeedRow(VersionOf(manifest, id, disk[id]), disk[id])
  }

  /** Community skills gone from disk; other rows are left as they are. */
  function Withdrawn(removed: set<string>): set<string> {
    set id | id in removed && "community/" <= id
  }

  ghost function SeedFor(manifest: Manifest, found: Checkout): Seed {
    Seed(RowsFor(manifest, found.disk), Withdrawn(manifest.Keys - found.disk.Keys) + found.developerOnly)
  }

  function OnDisk(atoms: seq<Found>): (disk: Disk)
    ensures forall id :: id in disk <==> exists a :: a in atoms && a.id == id
  {
    if atoms == [] then map[]
    else
      var last := atoms[|atoms| - 1];
      OnDisk(atoms[..|atoms| - 1])[last.id := last.atom]
  }

  ghost predicate DistinctAtoms(atoms: seq<Found>) {
    forall i, j :: 0 <= i < j < |atoms| ==> atoms[i].id != atoms[j].id
  }

  /** One more atom: its id is new. */
  lemma OnDiskGrows(atoms: seq<Found>, i: nat)
    requires DistinctAtoms(atoms) && i < |atoms|
    ensures atoms[i].id !in OnDisk(atoms[..i])
    ensures OnDisk(atoms[..i + 1]) == OnDisk(atoms[..i])[atoms[i].id := atoms[i].atom]
  {
    assert atoms[..i + 1][..i] == atoms[..i];
  }

  lemma {:induction false} OnDiskHolds(atoms: seq<Found>)
    requires DistinctAtoms(atoms)
    ensures forall a :: a in atoms ==> a.id in OnDisk(atoms) && OnDisk(atoms)[a.id] == a.atom
  {
    if atoms != [] {
      OnDiskHolds(atoms[..|atoms| - 1]);
      OnDiskGrows(atoms, |atoms| - 1);
      assert atoms[..|atoms|] == atoms;
    }
  }

  datatype Outcome = Refused | UpToDate | Stale | Emitted(manifest: Manifest, seed: Seed)

  /** Drift: an atom added or changed on disk, or gone from it. */
  method FindDrift(manifest: Manifest, atoms: seq<Found>)
      returns (added: seq<string>, changed: seq<string>, removed: set<string>)
    requires DistinctAtoms(atoms)
    ensures forall id :: id in added <==> id in OnDisk(atoms) && id !in manifest
    ensures forall id :: id in changed <==>
              id in OnDisk(atoms) && id in manifest && manifest[id].hash != Sha256(Content(OnDisk(atoms)[id]))
    ensures removed == manifest.Keys - OnDisk(atoms).Keys
    ensures added == [] && changed == [] && removed == {} <==> Current(manifest, OnDisk(atoms))
  {
    added, changed := [], [];
    for i := 0 to |atoms|
      invariant forall id :: id in added <==> id in OnDisk(atoms[..i]) && id !in manifest
      invariant forall id :: id in changed <==>
                  id in OnDisk(atoms[..i]) && id in manifest
                      && manifest[id].hash != Sha256(Content(OnDisk(atoms[..i])[id]))
    {
      var a := atoms[i];
      OnDiskGrows(atoms, i);
      if a.id !in manifest {
        added := added + [a.id];
      } else if manifest[a.id].hash != Sha256(Content(a.atom)) {
        changed := changed + [a.id];
      }
    }
    var disk := OnDisk(atoms);
    assert atoms[..|atoms|] == atoms;
    removed := manifest.Keys - disk.Keys;
    NoDriftIsCurrent(manifest, disk, added, changed, removed);
  }

  lemma NoDriftIsCurrent(manifest: Manifest, disk: Disk, added: seq<string>, changed: seq<string>, removed: set<string>)
    requires forall id :: id in added <==> id in disk && id !in manifest
    requires forall id :: id in changed <==>
               id in disk && id in manifest && manifest[id].hash != Sha256(Content(disk[id]))
    requires removed == manifest.Keys - disk.Keys
    ensures added == [] && changed == [] && removed == {} <==> Current(manifest, disk)
  {
    if added == [] && changed == [] && removed == {} {
      forall id ensures id in manifest <==> id in disk {
        assert id !in added && id !in removed;
      }
      forall id | id in disk ensures manifest[id].hash == Sha256(Content(disk[id])) {
        assert id !in changed;
      }
    }
    assert added != [] ==> added[0] in added;
    assert changed != [] ==> changed[0] in changed;
  }

  ghost predicate BuiltFrom(manifest: Manifest, disk: Disk, newManifest: Manifest, rows: map<string, SeedRow>) {
    newManifest == ManifestAfter(manifest, disk) && rows == RowsFor(manifest, disk)
  }

  lemma OneMoreBuilt(manifest: Manifest, disk: Disk, newManifest: Manifest, rows: map<string, SeedRow>, a: Found)
    requires BuiltFrom(manifest, disk, newManifest, rows)
    ensures var version := VersionOf(manifest, a.id, a.atom);
            BuiltFrom(manifest, disk[a.id := a.atom],
                      newManifest[a.id := Entry(Sha256(Content(a.atom)), version)],
                      rows[a.id := SeedRow(version, a.atom)])
  {
  }

  method BuildRows(manifest: Manifest, atoms: seq<Found>) returns (newManifest: Manifest, rows: map<string, SeedRow>)
    requires DistinctAtoms(atoms)
    ensures newManifest == ManifestAfter(manifest, OnDisk(atoms)) && rows == RowsFor(manifest, OnDisk(atoms))
  {
    hide VersionOf, Content;
    newManifest, rows := map[], map[];
    for i := 0 to |atoms|
      invariant BuiltFrom(manifest, OnDisk(atoms[..i]), newManifest, rows)
    {
      var a := atoms[i];
      OnDiskGrows(atoms, i);
      var version := VersionOf(manifest, a.id, a.atom);
      OneMoreBuilt(manifest, OnDisk(atoms[..i]), newManifest, rows, a);
      newManifest := newManifest[a.id := Entry(Sha256(Content(a.atom)), version)];
      rows := rows[a.id := SeedRow(version, a.atom)];
    }
    assert atoms[..|atoms|] == atoms;
  }

  method Generate(manifest: Manifest, atoms: seq<Found>, developerOnly: set<string>, checkOnly: bool)
      returns (outcome: Outcome)
    requires DistinctAtoms(atoms)
    ensures outcome == Refused <==> atoms == []
    ensures outcome == UpToDate <==> atoms != [] && NothingNew(manifest, atoms)
    ensures outcome == Stale <==> atoms != [] && !NothingNew(manifest, atoms) && checkOnly
    ensures outcome.Emitted? ==>
              && outcome.manifest == ManifestAfter(manifest, OnDisk(atoms))
              && outcome.seed == SeedFor(manifest, Checkout(OnDisk(atoms), developerOnly))
    // the seed holds what is on disk, and switches off what is for developers only and every community skill gone
    ensures outcome.Emitted? ==>
              && outcome.seed.rows.Keys == outcome.manifest.Keys == (set a | a in atoms :: a.id)
              && (forall a :: a in atoms ==>
                    && outcome.seed.rows[a.id] == SeedRow(outcome.manifest[a.id].version, a.atom)
                    && IsHashOf(outcome.manifest[a.id].hash, a.atom)
                    && outcome.manifest[a.id].version
                       == if a.id !in manifest then 1
                          else manifest[a.id].version + if IsHashOf(manifest[a.id].hash, a.atom) then 0 else 1)
              && (forall id :: id in outcome.seed.off <==>
                    || id in developerOnly
                    || (id in manifest && "community/" <= id && forall a :: a in atoms ==> a.id != id))
  {
    OnDiskHolds(atoms);
    CurrentIsNothingNew(manifest, atoms);
    if atoms == [] {
      return Refused;
    }
    var added, changed, removed := FindDrift(manifest, atoms);
    if added == [] && changed == [] && removed == {} {
      return UpToDate;
    }
    if checkOnly {
      return Stale;
    }
    var newManifest, rows := BuildRows(manifest, atoms);
    outcome := Emitted(newManifest, Seed(rows, Withdrawn(removed) + developerOnly));
    forall a | a in atoms
      ensures IsHashOf(newManifest[a.id].hash, a.atom)
      ensures a.id in manifest ==>
                (manifest[a.id].hash == Sha256(Content(a.atom)) <==> IsHashOf(manifest[a.id].hash, a.atom))
    {
      HashDecides(newManifest[a.id].hash, a.atom);
      if a.id in manifest { HashDecides(manifest[a.id].hash, a.atom); }
    }
  }

  /** The manifest lists exactly the atoms found, each with its hash. */
  ghost predicate NothingNew(manifest: Manifest, atoms: seq<Found>) {
    && (forall a :: a in atoms ==> a.id in manifest && IsHashOf(manifest[a.id].hash, a.atom))
    && (forall id :: id in manifest ==> exists a :: a in atoms && a.id == id)
  }

  lemma CurrentIsNothingNew(manifest: Manifest, atoms: seq<Found>)
    requires DistinctAtoms(atoms)
    ensures Current(manifest, OnDisk(atoms)) <==> NothingNew(manifest, atoms)
  {
    OnDiskHolds(atoms);
    forall a | a in atoms && a.id in manifest
      ensures manifest[a.id].hash == Sha256(Content(a.atom)) <==> IsHashOf(manifest[a.id].hash, a.atom)
    {
      HashDecides(manifest[a.id].hash, a.atom);
    }
    hide Content, IsHashOf;
  }

  // ----- a linear history of runs -----

  datatype History = History(manifest: Manifest, seeds: seq<Seed>)

  /** What is committed after runs over these checkouts, in order. */
  ghost function Runs(checkouts: seq<Checkout>): History {
    if checkouts == [] then History(map[], [])
    else
      var before, found := Runs(checkouts[..|checkouts| - 1]), checkouts[|checkouts| - 1];
      if found.disk == map[] || Current(before.manifest, found.disk) then before
      else History(ManifestAfter(before.manifest, found.disk), before.seeds + [SeedFor(before.manifest, found)])
  }

  /** The atom stays on disk from its first appearance on. */
  ghost predicate Stays(id: string, checkouts: seq<Checkout>) {
    forall i, j :: 0 <= i < j < |checkouts| && id in checkouts[i].disk ==> id in checkouts[j].disk
  }

  ghost function VersionIn(id: string, seed: Seed): nat
    requires id in seed.rows
  {
    seed.rows[id].version
  }

  ghost function ContentIn(id: string, seed: Seed): Hashed
    requires id in seed.rows
  {
    Content(seed.rows[id].atom)
  }

  /**
   The last seed wrote what the manifest holds; earlier ones hold no later
   version, and an equal one only for equal content.
   */
  ghost predicate Tracked(id: string, h: History) {
    && (forall k :: 0 <= k < |h.seeds| && id in h.seeds[k].rows ==>
          && id in h.manifest
          && VersionIn(id, h.seeds[k]) <= h.manifest[id].version
          && (VersionIn(id, h.seeds[k]) == h.manifest[id].version ==>
             Sha256(ContentIn(id, h.seeds[k])) == h.manifest[id].hash))
    && (h.seeds != [] && id in h.manifest ==>
          && id in h.seeds[|h.seeds| - 1].rows
          && h.manifest[id]
             == Entry(Sha256(ContentIn(id, h.seeds[|h.seeds| - 1])), VersionIn(id, h.seeds[|h.seeds| - 1])))
  }

  /** From one seed to the next the version goes up by one exactly when the content changed. */
  ghost predicate BumpedOnChange(id: string, s: Seed, t: Seed) {
    id in s.rows ==>
      && id in t.rows
      && VersionIn(id, t) == if ContentIn(id, t) == ContentIn(id, s) then VersionIn(id, s) else VersionIn(id, s) + 1
  }

  ghost predicate VersionIsContent(id: string, seeds: seq<Seed>) {
    forall j, k :: 0 <= j < |seeds| && 0 <= k < |seeds| && id in seeds[j].rows && id in seeds[k].rows
                   && VersionIn(id, seeds[j]) == VersionIn(id, seeds[k]) ==>
      ContentIn(id, seeds[j]) == ContentIn(id, seeds[k])
  }

  /** Over any linear history, for an atom that stays on disk; such an atom is never withdrawn. */
  lemma {:induction false} HistoryIsTracked(id: string, checkouts: seq<Checkout>)
    requires Stays(id, checkouts)
    ensures var h := Runs(checkouts);
            && Tracked(id, h) && VersionIsContent(id, h.seeds)
            && (forall k :: 0 < k < |h.seeds| ==> BumpedOnChange(id, h.seeds[k - 1], h.seeds[k]))
            && (id in h.manifest ==> checkouts != [] && id in checkouts[|checkouts| - 1].disk)
            && (h.seeds == [] ==> h.manifest == map[])
  {
    hide Content, VersionOf, Tracked, VersionIsContent;
    if checkouts == [] {
      NothingTracked(id);
    } else {
      var front, found := checkouts[..|checkouts| - 1], checkouts[|checkouts| - 1];
      HistoryIsTracked(id, front);
      var before, h := Runs(front), Runs(checkouts);
      if h != before {
        OneMoreSeed(id, before, found);
      }
    }
  }

  lemma NothingTracked(id: string)
    ensures Tracked(id, History(map[], [])) && VersionIsContent(id, [])
  {
  }

  lemma OneMoreSeed(id: string, before: History, found: Checkout)
    requires Tracked(id, before) && VersionIsContent(id, before.seeds)
    requires before.seeds == [] ==> before.manifest == map[]
    requires id in before.manifest ==> id in found.disk
    ensures var h := History(ManifestAfter(before.manifest, found.disk),
            before.seeds + [SeedFor(before.manifest, found)]);
            && Tracked(id, h) && VersionIsContent(id, h.seeds)
            && (before.seeds != [] ==> BumpedOnChange(id, before.seeds[|before.seeds| - 1], h.seeds[|before.seeds|]))
  {
    hide Content;
    var last := SeedFor(before.manifest, found);
    var h := History(ManifestAfter(before.manifest, found.disk), before.seeds + [last]);
    forall k | 0 <= k < |h.seeds| && id in h.seeds[k].rows
      ensures && id in h.manifest
              && VersionIn(id, h.seeds[k]) <= h.manifest[id].version
              && (VersionIn(id, h.seeds[k]) == h.manifest[id].version ==>
                 Sha256(ContentIn(id, h.seeds[k])) == h.manifest[id].hash)
    {
      if k < |before.seeds| {
        assert h.seeds[k] == before.seeds[k];
      }
    }
    forall j, k | 0 <= j < |h.seeds| && 0 <= k < |h.seeds| && id in h.seeds[j].rows && id in h.seeds[k].rows
                  && VersionIn(id, h.seeds[j]) == VersionIn(id, h.seeds[k])
      ensures ContentIn(id, h.seeds[j]) == ContentIn(id, h.seeds[k])
    {
      if j < |before.seeds| && k < |before.seeds| {
        assert h.seeds[j] == before.seeds[j] && h.seeds[k] == before.seeds[k];
      } else {
        assert Sha256(ContentIn(id, h.seeds[j])) == h.manifest[id].hash || j == |before.seeds|;
        assert Sha256(ContentIn(id, last)) == h.manifest[id].hash && VersionIn(id, last) == h.manifest[id].version;
      }
    }
  }

  /** Generating right after generating emits nothing. */
  lemma RegeneratingIsIdle(manifest: Manifest, found: Checkout)
    ensures Current(ManifestAfter(manifest, found.disk), found.disk)
    ensures found.disk != map[] ==>
              forall checkouts :: Runs(checkouts + [found, found]) == Runs(checkouts + [found])
  {
    forall checkouts: seq<Checkout> | found.disk != map[]
      ensures Runs(checkouts + [found, found]) == Runs(checkouts + [found])
    {
      var twice, once := checkouts + [found, found], checkouts + [found];
      assert twice[..|twice| - 1] == once && once[..|once| - 1] == checkouts;
    }
  }

  // ----- the upsert -----

  /** `active` is a column no seed writes but to switch the row off. */
  datatype Row = Row(version: nat, columns: Columns, mcpExposed: bool, reviewedAt: Option<string>, active: bool)

  type Registry = map<string, Row>

  function Exposed(a: Atom): bool {
    a.mcpExposed.GetOr(true)
  }

  function Inserted(excluded: SeedRow): Row {
    Row(excluded.version, excluded.atom.columns, Exposed(excluded.atom), excluded.atom.reviewedAt, true)
  }

  /**
   `DO UPDATE … WHERE version <= EXCLUDED.version`: exposure is a seed's only
   for a community skill, a review date stays.
   */
  function Merged(row: Row, excluded: SeedRow): Row {
    if row.version > excluded.version then row
    else Row(excluded.version, excluded.atom.columns,
             if IsCommunity(excluded.atom) then Exposed(excluded.atom) else row.mcpExposed,
             if excluded.atom.reviewedAt.Some? then excluded.atom.reviewedAt else row.reviewedAt,
             row.active)
  }

  function SwitchedOff(row: Row): Row {
    row.(mcpExposed := false, active := false)
  }

  function Upserted(registry: Registry, seed: Seed, id: string): Row
    requires id in registry || id in seed.rows
  {
    if id !in seed.rows then registry[id]
    else if id !in registry then Inserted(seed.rows[id])
    else Merged(registry[id], seed.rows[id])
  }

  /** One seed migration: the upsert of every row, then the rows to switch off. */
  function Apply(registry: Registry, seed: Seed): Registry {
    map id | id in registry.Keys + seed.rows.Keys ::
      if id in seed.off then SwitchedOff(Upserted(registry, seed, id)) else Upserted(registry, seed, id)
  }

  function ApplyAll(registry: Registry, order: seq<Seed>): Registry {
    if order == [] then registry else Apply(ApplyAll(registry, order[..|order| - 1]), order[|order| - 1])
  }

  /** One seed, row by row: what is inserted, merged, left alone and switched off. */
  lemma SeedRowByRow(registry: Registry, seed: Seed, id: string)
    requires id in seed.rows || id in registry
    ensures var after, off := Apply(registry, seed)[id], id in seed.off;
            if id !in seed.rows then
              after == if off then registry[id].(mcpExposed := false, active := false) else registry[id]
            else
              var (version, atom) := (seed.rows[id].version, seed.rows[id].atom);
              if id !in registry then
                && after.version == version && after.columns == atom.columns && after.reviewedAt == atom.reviewedAt
                && after.active == !off
                && after.mcpExposed == (!off && (atom.mcpExposed.Some? ==> atom.mcpExposed.value))
              else if registry[id].version > version then
                after == if off then registry[id].(mcpExposed := false, active := false) else registry[id]
              else
                && after.version == version && after.columns == atom.columns
                && after.reviewedAt == (if atom.reviewedAt.Some? then atom.reviewedAt else registry[id].reviewedAt)
                && after.active == (!off && registry[id].active)
                && after.mcpExposed
                   == (!off && if atom.columns.tier == "community" then
                                 (atom.mcpExposed.Some? ==> atom.mcpExposed.value)
                               else registry[id].mcpExposed)
  {
  }

  /**
   Applying what a run emits: a community skill gone from disk is inactive and
   unexposed, and any other atom gone keeps its row, but for those meant for
   developers only.
   */
  lemma WithdrawnIsSwitchedOff(manifest: Manifest, found: set<string>, developerOnly: set<string>, seed: Seed,
                               registry: Registry, id: string)
    requires seed.rows.Keys == found
    requires forall other :: other in seed.off <==>
               other in developerOnly || (other in manifest && "community/" <= other && other !in found)
    requires id in registry && id in manifest && id !in found
    ensures "community/" <= id ==> !Apply(registry, seed)[id].active && !Apply(registry, seed)[id].mcpExposed
    ensures !("community/" <= id) && id !in developerOnly ==> Apply(registry, seed)[id] == registry[id]
  {
    SeedRowByRow(registry, seed, id);
    hide Apply;
  }

  /** No seed lowers a row's version, takes away its review date, switches it on or removes it. */
  lemma NeverDowngrades(registry: Registry, seed: Seed, id: string)
    requires id in registry
    ensures id in Apply(registry, seed)
    ensures var row, after := registry[id], Apply(registry, seed)[id];
            && after.version >= row.version
            && (row.reviewedAt.Some? ==> after.reviewedAt.Some?)
            && (after.active ==> row.active)
  {
  }

  /** Exposure of a row that is no community skill is a person's: a seed can only switch it off, by name. */
  lemma ExposureStaysManual(registry: Registry, seed: Seed, id: string)
    requires id in registry
    requires id in seed.rows ==> !IsCommunity(seed.rows[id].atom)
    ensures Apply(registry, seed)[id].mcpExposed == (registry[id].mcpExposed && id !in seed.off)
  {
  }

  /** A seed is taken for a row unless the row is newer. */
  ghost predicate Takes(registry: Registry, seed: Seed, id: string) {
    id in seed.rows && (id in registry ==> registry[id].version <= VersionIn(id, seed))
  }

  /** What one more seed makes of one row. */
  lemma RowAfter(registry: Registry, seed: Seed, id: string)
    ensures id in Apply(registry, seed) <==> id in registry || id in seed.rows
    ensures Takes(registry, seed, id) ==>
              var row, atom := Apply(registry, seed)[id], seed.rows[id].atom;
              && row.version == VersionIn(id, seed) && row.columns == atom.columns
              && row.reviewedAt == (if atom.reviewedAt.Some?
                 || id !in registry then atom.reviewedAt else registry[id].reviewedAt)
              && (IsCommunity(atom) && id !in seed.off ==> row.mcpExposed == Exposed(atom))
    ensures id in registry && !Takes(registry, seed, id) ==>
              var row, was := Apply(registry, seed)[id], registry[id];
              && row.version == was.version && row.columns == was.columns && row.reviewedAt == was.reviewedAt
              && (id !in seed.off ==> row == was)
  {
  }

  lemma OneMoreApplied(registry: Registry, order: seq<Seed>, seed: Seed)
    ensures ApplyAll(registry, order + [seed]) == Apply(ApplyAll(registry, order), seed)
  {
    assert (order + [seed])[..|order|] == order;
  }

  lemma OneApplied(registry: Registry, seed: Seed)
    ensures ApplyAll(registry, [seed]) == Apply(registry, seed)
  {
    OneMoreApplied(registry, [], seed);
    assert [] + [seed] == [seed];
  }

  lemma {:induction false} FirstApplied(registry: Registry, seed: Seed, order: seq<Seed>)
    ensures ApplyAll(registry, [seed] + order) == ApplyAll(Apply(registry, seed), order)
  {
    hide Apply;
    if order == [] {
      OneApplied(registry, seed);
      assert [seed] + order == [seed];
    } else {
      var front, last := order[..|order| - 1], order[|order| - 1];
      FirstApplied(registry, seed, front);
      OneMoreApplied(registry, [seed] + front, last);
      assert [seed] + order == ([seed] + front) + [last];
    }
  }

  // ----- the state several seeds end in -----

  ghost predicate IsHeld(order: seq<Seed>, id: string) {
    exists k :: 0 <= k < |order| && id in order[k].rows
  }

  /** No seed of the list holds a later version of the atom. */
  ghost predicate IsMaximum(version: nat, order: seq<Seed>, id: string) {
    forall k :: 0 <= k < |order| && id in order[k].rows ==> VersionIn(id, order[k]) <= version
  }

  /** The last of the seeds with the highest version. */
  ghost predicate Wins(k: nat, order: seq<Seed>, id: string) {
    && k < |order| && id in order[k].rows && IsMaximum(VersionIn(id, order[k]), order, id)
    && forall j :: k < j < |order| && id in order[j].rows ==> VersionIn(id, order[j]) < VersionIn(id, order[k])
  }

  ghost predicate NeverOff(order: seq<Seed>, id: string) {
    forall j :: 0 <= j < |order| ==> id !in order[j].off
  }

  /**
   From any registry, in any order, with any repeats: the row ends at the
   maximum of its own version and those of the seeds. Unless it is newer than
   every seed it has the columns of the last seed of the highest version, and
   is exposed as that seed says if it is a community skill and never switched
   off; if it is newer, nothing but switching it off touches it.
   */
  lemma {:induction false} EndsAtTheMaximum(registry: Registry, order: seq<Seed>, id: string) returns (k: nat)
    ensures id in ApplyAll(registry, order) <==> id in registry || IsHeld(order, id)
    ensures IsHeld(order, id) ==> Wins(k, order, id)
    ensures IsHeld(order, id) && Takes(registry, order[k], id) ==>
              && var row, winner := ApplyAll(registry, order)[id], order[k].rows[id];
              && row.version == winner.version && row.columns == winner.atom.columns
              && (IsCommunity(winner.atom) && NeverOff(order, id) ==> row.mcpExposed == Exposed(winner.atom))
    ensures id in registry && (IsHeld(order, id) ==> !Takes(registry, order[k], id)) ==>
              && var row, was := ApplyAll(registry, order)[id], registry[id];
              && row.version == was.version && row.columns == was.columns && row.reviewedAt == was.reviewedAt
              && (NeverOff(order, id) ==> row == was)
  {
    hide Apply, IsCommunity, Exposed;
    k := 0;
    if order != [] {
      var front, last := order[..|order| - 1], order[|order| - 1];
      assert order == front + [last];
      k := EndsAtTheMaximum(registry, front, id);
      var before := ApplyAll(registry, front);
      RowAfter(before, last, id);
      if id in last.rows && (!IsHeld(front, id) || VersionIn(id, front[k]) <= VersionIn(id, last)) {
        k := |front|;
      }
      HeldBefore(front, last, id);
    }
  }

  lemma HeldBefore(front: seq<Seed>, last: Seed, id: string)
    ensures IsHeld(front + [last], id) <==> IsHeld(front, id) || id in last.rows
    ensures NeverOff(front + [last], id) <==> NeverOff(front, id) && id !in last.off
  {
    var order := front + [last];
    assert forall j :: 0 <= j < |front| ==> order[j] == front[j];
    assert order[|front|] == last;
  }

  /**
   Two orders of seeds of one history that hold the same seeds bring any
   registry to the same version and content.
   */
  lemma OrderDoesNotMatter(registry: Registry, id: string, checkouts: seq<Checkout>, one: seq<Seed>, two: seq<Seed>)
    requires Stays(id, checkouts)
    requires SameSeeds(one, two)
    requires forall s :: s in one ==> s in Runs(checkouts).seeds
    ensures id in ApplyAll(registry, one) <==> id in ApplyAll(registry, two)
    ensures id in ApplyAll(registry, one) ==>
              && var a, b := ApplyAll(registry, one)[id], ApplyAll(registry, two)[id];
              && a.version == b.version && a.columns.body == b.columns.body
              && (a.columns.tier == COMMUNITY <==> b.columns.tier == COMMUNITY)
              && (a.columns.tier == COMMUNITY ==>
                    && a.columns.title == b.columns.title && a.columns.description == b.columns.description
                    && ((forall s :: s in one ==> id !in s.off) ==> a.mcpExposed == b.mcpExposed))
  {
    hide Runs, ApplyAll;
    HistoryIsTracked(id, checkouts);
    var i := EndsAtTheMaximum(registry, one, id);
    var j := EndsAtTheMaximum(registry, two, id);
    SameHeld(one, two, id);
    if IsHeld(one, id) {
      assert one[i] in two && two[j] in one;
      var seeds := Runs(checkouts).seeds;
      assert one[i] in seeds && two[j] in seeds;
    }
  }

  lemma SameHeld(one: seq<Seed>, two: seq<Seed>, id: string)
    requires SameSeeds(one, two)
    ensures IsHeld(one, id) <==> IsHeld(two, id)
    ensures (forall s :: s in one ==> id !in s.off) ==> NeverOff(one, id) && NeverOff(two, id)
  {
    forall k | 0 <= k < |one| ensures one[k] in two { assert one[k] in one; }
    forall k | 0 <= k < |two| ensures two[k] in one { assert two[k] in two; }
  }

  ghost predicate SameSeeds(one: seq<Seed>, two: seq<Seed>) {
    forall s :: s in one <==> s in two
  }

  // ----- the review date -----

  ghost function DateIn(id: string, seed: Seed): Option<string>
    requires id in seed.rows
  {
    seed.rows[id].atom.reviewedAt
  }

  ghost function DateOf(registry: Registry, id: string): Option<string> {
    if id in registry then registry[id].reviewedAt else None
  }

  ghost function DateAfter(registry: Registry, order: seq<Seed>, id: string): Option<string> {
    DateOf(ApplyAll(registry, order), id)
  }

  /** A seed of the highest version that carries a date and is taken. */
  ghost predicate DatedAtTheMaximum(registry: Registry, seed: Seed, order: seq<Seed>, id: string) {
    && seed in order && Takes(registry, seed, id) && DateIn(id, seed).Some?
    && IsMaximum(VersionIn(id, seed), order, id)
  }

  /** Every seed taken that carries a date carries that of the row. */
  ghost predicate NoNewDate(registry: Registry, order: seq<Seed>, id: string) {
    forall k :: 0 <= k < |order| && Takes(registry, order[k], id) && DateIn(id, order[k]).Some? ==>
      DateIn(id, order[k]) == DateOf(registry, id)
  }

  /** The seeds of the highest version carry one date, or no seed brings a new one. */
  ghost predicate DateIsSettled(registry: Registry, order: seq<Seed>, id: string) {
    || NoNewDate(registry, order, id)
    || (&& (exists s :: DatedAtTheMaximum(registry, s, order, id))
        && (forall s, t :: DatedAtTheMaximum(registry, s, order, id) && DatedAtTheMaximum(registry, t, order, id) ==>
           DateIn(id, s) == DateIn(id, t)))
  }

  /** Whatever the order and the repeats, the row ends with the same review date. */
  ghost predicate DateIgnoresOrder(registry: Registry, order: seq<Seed>, id: string) {
    forall one, two :: SameSeeds(one, order) && SameSeeds(two, order) ==>
      DateAfter(registry, one, id) == DateAfter(registry, two, id)
  }

  /** From any registry the review date does not depend on the order of the seeds if and only if it is settled. */
  lemma ReviewDateIgnoresOrderIff(registry: Registry, order: seq<Seed>, id: string)
    ensures DateIgnoresOrder(registry, order, id) <==> DateIsSettled(registry, order, id)
  {
    hide ApplyAll, DateAfter, IsMaximum;
    if DateIsSettled(registry, order, id) {
      forall one, two | SameSeeds(one, order) && SameSeeds(two, order)
          ensures DateAfter(registry, one, id) == DateAfter(registry, two, id) {
        SettledDate(registry, order, one, id);
        SettledDate(registry, order, two, id);
      }
    } else if exists s :: DatedAtTheMaximum(registry, s, order, id) {
      var s, t :| && DatedAtTheMaximum(registry, s, order, id) && DatedAtTheMaximum(registry, t, order, id)
                  && DateIn(id, s) != DateIn(id, t);
      LastAtTheMaximum(registry, order, s, id);
      LastAtTheMaximum(registry, order, t, id);
      assert SameSeeds(order + [s], order) && SameSeeds(order + [t], order);
    } else {
      var k :| && 0 <= k < |order| && Takes(registry, order[k], id) && DateIn(id, order[k]).Some?
               && DateIn(id, order[k]) != DateOf(registry, id);
      var w := HighestFirst(registry, order, k, id);
      assert SameSeeds([order[w]] + order, order) && SameSeeds([order[k]] + ([order[w]] + order), order);
    }
  }

  /** With no date at the highest version, a seed of it shuts out every dated one that has not come before it. */
  lemma HighestFirst(registry: Registry, order: seq<Seed>, k: nat, id: string) returns (w: nat)
    requires k < |order| && Takes(registry, order[k], id) && DateIn(id, order[k]).Some?
    requires forall s :: !DatedAtTheMaximum(registry, s, order, id)
    ensures w < |order| && DateAfter(registry, [order[w]] + order, id) == DateOf(registry, id)
    ensures DateAfter(registry, [order[k]] + ([order[w]] + order), id) == DateIn(id, order[k])
  {
    w := EndsAtTheMaximum(registry, order, id);
    assert IsHeld(order, id);
    forall j | 0 <= j < |order| && id in order[j].rows && VersionIn(id, order[j]) == VersionIn(id, order[w])
      ensures DateIn(id, order[j]).None?
    {
      assert order[j] in order && !DatedAtTheMaximum(registry, order[j], order, id);
    }
    hide Apply, ApplyAll;
    HighestShutsOut(registry, order[w], order, id);
    RowAfter(registry, order[k], id);
    HighestShutsOut(Apply(registry, order[k]), order[w], order, id);
    FirstApplied(registry, order[k], [order[w]] + order);
  }

  lemma {:induction false} HighestShutsOut(registry: Registry, top: Seed, rest: seq<Seed>, id: string)
    requires Takes(registry, top, id) && DateIn(id, top).None? && IsMaximum(VersionIn(id, top), rest, id)
    requires forall k :: 0 <= k < |rest| && id in rest[k].rows && VersionIn(id, rest[k]) == VersionIn(id, top) ==>
               DateIn(id, rest[k]).None?
    ensures DateAfter(registry, [top] + rest, id) == DateOf(registry, id)
    ensures id in ApplyAll(registry, [top] + rest)
            && ApplyAll(registry, [top] + rest)[id].version == VersionIn(id, top)
  {
    hide Apply;
    if rest == [] {
      assert [top] + rest == [top];
      OneApplied(registry, top);
      RowAfter(registry, top, id);
    } else {
      var front, last := rest[..|rest| - 1], rest[|rest| - 1];
      assert forall k :: 0 <= k < |front| ==> front[k] == rest[k];
      HighestShutsOut(registry, top, front, id);
      assert [top] + rest == ([top] + front) + [last];
      OneMoreApplied(registry, [top] + front, last);
      RowAfter(ApplyAll(registry, [top] + front), last, id);
    }
  }

  /** The date of a dated seed of the highest version, when it comes last. */
  lemma LastAtTheMaximum(registry: Registry, order: seq<Seed>, s: Seed, id: string)
    requires DatedAtTheMaximum(registry, s, order, id)
    ensures DateAfter(registry, order + [s], id) == DateIn(id, s)
  {
    hide Apply;
    OneMoreApplied(registry, order, s);
    var k := EndsAtTheMaximum(registry, order, id);
    RowAfter(ApplyAll(registry, order), s, id);
  }

  /** Without a new date the row's own stays; else the date is that of some dated seed of the highest version. */
  lemma SettledDate(registry: Registry, order: seq<Seed>, one: seq<Seed>, id: string)
    requires DateIsSettled(registry, order, id) && SameSeeds(one, order)
    ensures NoNewDate(registry, order, id) ==> DateAfter(registry, one, id) == DateOf(registry, id)
    ensures !NoNewDate(registry, order, id) ==>
              forall s :: DatedAtTheMaximum(registry, s, order, id) ==> DateAfter(registry, one, id) == DateIn(id, s)
  {
    hide ApplyAll, DateAfter, Takes;
    if NoNewDate(registry, order, id) {
      forall k | 0 <= k < |one| ensures one[k] in order { assert one[k] in one; }
      DateStays(registry, one, id);
    } else {
      forall s ensures DatedAtTheMaximum(registry, s, order, id) <==> DatedAtTheMaximum(registry, s, one, id) {
        assert s in one <==> s in order;
        forall k | 0 <= k < |order| ensures order[k] in one { assert order[k] in order; }
        forall k | 0 <= k < |one| ensures one[k] in order { assert one[k] in one; }
      }
      DateAtTheMaximum(registry, one, id);
    }
  }

  lemma {:induction false} DateStays(registry: Registry, order: seq<Seed>, id: string)
    requires NoNewDate(registry, order, id)
    ensures DateAfter(registry, order, id) == DateOf(registry, id)
  {
    hide Apply;
    if order != [] {
      var front, last := order[..|order| - 1], order[|order| - 1];
      assert forall k :: 0 <= k < |front| ==> front[k] == order[k];
      DateStays(registry, front, id);
      var k := EndsAtTheMaximum(registry, front, id);
      RowAfter(ApplyAll(registry, front), last, id);
    }
  }

  lemma {:induction false} DateAtTheMaximum(registry: Registry, order: seq<Seed>, id: string)
    ensures (exists s :: DatedAtTheMaximum(registry, s, order, id)) ==>
              exists s :: DatedAtTheMaximum(registry, s, order, id) && DateAfter(registry, order, id) == DateIn(id, s)
  {
    hide Apply;
    if s :| DatedAtTheMaximum(registry, s, order, id) {
      var front, last := order[..|order| - 1], order[|order| - 1];
      assert order == front + [last];
      var k := EndsAtTheMaximum(registry, front, id);
      RowAfter(ApplyAll(registry, front), last, id);
      if id in last.rows && IsMaximum(VersionIn(id, last), order, id) && DateIn(id, last).Some? {
        assert DatedAtTheMaximum(registry, last, order, id);
      } else {
        assert s in front;
        assert DatedAtTheMaximum(registry, s, front, id);
        DateAtTheMaximum(registry, front, id);
        var t :| DatedAtTheMaximum(registry, t, front, id) && DateAfter(registry, front, id) == DateIn(id, t);
        assert DatedAtTheMaximum(registry, t, order, id);
      }
    }
  }

  /**
   One history: the seeds of a version agree on a community skill's date, so
   only a newer undated seed unsettles it.
   */
  lemma ReviewDateInOneHistory(registry: Registry, id: string, checkouts: seq<Checkout>, order: seq<Seed>)
    requires Stays(id, checkouts)
    requires forall s :: s in order ==> s in Runs(checkouts).seeds
    requires forall s :: s in order && id in s.rows ==> IsCommunity(s.rows[id].atom)
    ensures DateIgnoresOrder(registry, order, id) <==>
              (NoNewDate(registry, order, id) || exists s :: DatedAtTheMaximum(registry, s, order, id))
  {
    hide Runs, DateIgnoresOrder, IsMaximum;
    HistoryIsTracked(id, checkouts);
    ReviewDateIgnoresOrderIff(registry, order, id);
    forall s, t | DatedAtTheMaximum(registry, s, order, id) && DatedAtTheMaximum(registry, t, order, id)
        ensures DateIn(id, s) == DateIn(id, t) {
      BothMaximal(registry, s, t, order, id);
      var seeds := Runs(checkouts).seeds;
      assert s in seeds && t in seeds;
      assert ContentIn(id, s) == ContentIn(id, t);
    }
  }

  lemma BothMaximal(registry: Registry, s: Seed, t: Seed, order: seq<Seed>, id: string)
    requires DatedAtTheMaximum(registry, s, order, id) && DatedAtTheMaximum(registry, t, order, id)
    ensures VersionIn(id, s) == VersionIn(id, t)
  {
  }

  /** A community skill reviewed in its first version and not in its second: two orders, two dates. */
  lemma ReviewDateDependsOnTheOrder(columns: Columns, id: string, date: string)
    requires columns.tier == COMMUNITY
    ensures var reviewed, unreviewed := Atom(columns, Some(true), Some(date)), Atom(columns, Some(false), None);
            var h := Runs([Checkout(map[id := reviewed], {}), Checkout(map[id := unreviewed], {})]);
            && |h.seeds| == 2 && h.seeds[0].rows == map[id := SeedRow(1, reviewed)]
            && h.seeds[1].rows == map[id := SeedRow(2, unreviewed)]
            && DateAfter(map[], h.seeds, id) == Some(date) && DateAfter(map[], [h.seeds[1], h.seeds[0]], id) == None
  {
    var reviewed, unreviewed := Atom(columns, Some(true), Some(date)), Atom(columns, Some(false), None);
    var first, second := Checkout(map[id := reviewed], {}), Checkout(map[id := unreviewed], {});
    TwoRuns(first, second, id);
    var s, t := SeedFor(map[], first), SeedFor(ManifestAfter(map[], first.disk), second);
    FirstSeeds(first, second, id);
    hide SeedFor, Runs;
    DatedThenUndated(s, t, id);
  }

  lemma FirstSeeds(first: Checkout, second: Checkout, id: string)
    requires first.disk.Keys == second.disk.Keys == {id} && Content(first.disk[id]) != Content(second.disk[id])
    ensures SeedFor(map[], first).rows == map[id := SeedRow(1, first.disk[id])]
    ensures SeedFor(ManifestAfter(map[], first.disk), second).rows == map[id := SeedRow(2, second.disk[id])]
  {
    hide Content;
  }

  lemma DatedThenUndated(s: Seed, t: Seed, id: string)
    requires id in s.rows && id in t.rows && VersionIn(id, s) < VersionIn(id, t)
    requires DateIn(id, s).Some? && DateIn(id, t).None?
    ensures DateAfter(map[], [s, t], id) == DateIn(id, s) && DateAfter(map[], [t, s], id) == None
  {
    hide ApplyAll, Apply;
    OneApplied(map[], s);
    OneApplied(map[], t);
    OneMoreApplied(map[], [s], t);
    OneMoreApplied(map[], [t], s);
    assert [s] + [t] == [s, t] && [t] + [s] == [t, s];
    RowAfter(map[], s, id);
    RowAfter(map[], t, id);
    RowAfter(Apply(map[], s), t, id);
    RowAfter(Apply(map[], t), s, id);
  }

  lemma TwoRuns(first: Checkout, second: Checkout, id: string)
    requires first.disk.Keys == second.disk.Keys == {id} && Content(first.disk[id]) != Content(second.disk[id])
    ensures Runs([first, second]).seeds == [SeedFor(map[], first), SeedFor(ManifestAfter(map[], first.disk), second)]
  {
    hide Content, SeedFor;
    assert [first, second][..1] == [first] && [first][..0] == [];
    assert Runs([]) == History(map[], []);
    assert id in first.disk && id in second.disk && first.disk != map[] && second.disk != map[];
    assert Runs([first]) == History(ManifestAfter(map[], first.disk), [] + [SeedFor(map[], first)]);
  }

  // ----- where it stops -----

  /** An atom removed and added again restarts at 1, and a registry that saw a later version keeps the old text. */
  lemma ReaddedAtomIsShutOut(checkouts: seq<Checkout>, without: Checkout, back: Checkout, id: string,
                             registry: Registry)
    requires without.disk != map[] && id !in without.disk && id in back.disk
    requires id in registry && registry[id].version > 1
    ensures var h := Runs(checkouts + [without, back]);
            && h.seeds != [] && id in h.seeds[|h.seeds| - 1].rows
            && h.seeds[|h.seeds| - 1].rows[id] == SeedRow(1, back.disk[id])
            && Apply(registry, h.seeds[|h.seeds| - 1])[id].columns == registry[id].columns
  {
    var both, one := checkouts + [without, back], checkouts + [without];
    assert both[..|both| - 1] == one && one[..|one| - 1] == checkouts;
    assert Runs(one).manifest.Keys == without.disk.Keys;
  }

  /** The columns that are not hashed follow the seed applied last, older or newer, while the version stays. */
  lemma UnhashedColumnsFollowTheLastSeed(registry: Registry, s: Seed, t: Seed, id: string)
    requires id in s.rows && id in t.rows && VersionIn(id, s) == VersionIn(id, t)
    requires id in registry ==> registry[id].version <= VersionIn(id, s)
    ensures Apply(Apply(registry, s), t)[id].columns == t.rows[id].atom.columns
    ensures Apply(Apply(registry, t), s)[id].columns == s.rows[id].atom.columns
  {
    hide Apply;
    RowAfter(registry, s, id);
    RowAfter(registry, t, id);
    RowAfter(Apply(registry, s), t, id);
    RowAfter(Apply(registry, t), s, id);
  }
}
