/** The items and loot tables of one channel, and the Discord mutations that
  * must keep their dependency graph acyclic (`services/discord_admin_service.py`
  * with `services/item_dependency_validator.py`). The channel lock makes every
  * mutation one step.
  */
module ItemCatalog {
  import opened DependencyGraph
  import opened Text

  datatype Effect =
    | GrantItem(itemId: string)
    | LootTableRoll(tableId: string)
    | OtherEffect

  datatype Item = Item(effects: seq<Effect>, active: bool, version: nat)

  /** `entries` maps the item of a row to the row's version. */
  datatype Table = Table(active: bool, entries: map<string, nat>)

  /** A location's pool, with the loot table it points to if that was created. */
  datatype Pool = Unlinked(defaultTable: string) | Linked(tableId: string)

  datatype Catalog = Catalog(items: map<string, Item>, tables: map<string, Table>, pools: map<string, Pool>)

  datatype Expected = NoVersion | Version(n: nat)

  datatype Mutation =
    | UpsertItem(item: string, effects: seq<Effect>, expected: Expected)
    | ArchiveItem(item: string, expected: Expected)
    | UpsertDrop(location: string, item: string, expected: Expected)
    | RemoveDrop(location: string, item: string, expected: Expected)

  // ---- the dependency graph ------------------------------------------------

  /** The items one effect can hand out. A missing or inactive table hands out
    * nothing and is no error.
    */
  function Targets(tables: map<string, Table>, effect: Effect): set<string>
  {
    match effect
    case GrantItem(id) => if Strip(id) == "" then {} else {Strip(id)}
    case LootTableRoll(id) =>
      if Strip(id) != "" && Strip(id) in tables && tables[Strip(id)].active then tables[Strip(id)].entries.Keys else {}
    case OtherEffect => {}
  }

  function DependenciesOf(tables: map<string, Table>, effects: seq<Effect>): set<string>
  {
    set effect, target | effect in effects && target in Targets(tables, effect) :: target
  }

  function GraphOf(c: Catalog): Graph<string>
  {
    map item | item in c.items :: DependenciesOf(c.tables, c.items[item].effects)
  }

  ghost predicate Acyclic(c: Catalog) { !Cyclic(GraphOf(c)) }

  // ---- the mutations, on values --------------------------------------------

  function TableOf(pool: Pool): string
  {
    if pool.Linked? then pool.tableId else pool.defaultTable
  }

  /** `_ensure_pool_loot_table`: link the pool, creating its table if need be. */
  function Ensured(c: Catalog, location: string): Catalog
    requires location in c.pools
  {
    var id := TableOf(c.pools[location]);
    c.(tables := if id in c.tables then c.tables else c.tables[id := Table(true, map[])],
       pools := c.pools[location := Linked(id)])
  }

  /** The new table's name must not be taken by another table. */
  predicate CanEnsure(c: Catalog, location: string)
  {
    location in c.pools && (c.pools[location].Unlinked? ==> c.pools[location].defaultTable !in c.tables)
  }

  function WithItem(c: Catalog, item: string, effects: seq<Effect>): Catalog
  {
    var version := if item in c.items then c.items[item].version + 1 else 1;
    c.(items := c.items[item := Item(effects, true, version)])
  }

  function WithEntry(c: Catalog, table: string, item: string): Catalog
    requires table in c.tables
  {
    var t := c.tables[table];
    var version := if item in t.entries then t.entries[item] + 1 else 1;
    c.(tables := c.tables[table := t.(entries := t.entries[item := version])])
  }

  function WithoutEntry(c: Catalog, table: string, item: string): Catalog
    requires table in c.tables
  {
    c.(tables := c.tables[table := c.tables[table].(entries := c.tables[table].entries - {item})])
  }

  /** Everything the mutation checks besides the cycle. */
  predicate Admissible(c: Catalog, m: Mutation)
  {
    match m
    case UpsertItem(item, _, expected) => item in c.items ==> expected == Version(c.items[item].version)
    case ArchiveItem(item, expected) => item in c.items && expected == Version(c.items[item].version)
    case UpsertDrop(location, item, expected) =>
      && CanEnsure(c, location) && item in c.items && c.items[item].active
      && var entries := Ensured(c, location).tables[TableOf(c.pools[location])].entries;
         expected == if item in entries then Version(entries[item]) else NoVersion
    case RemoveDrop(location, item, expected) =>
      && CanEnsure(c, location) && item in c.items
      && var entries := Ensured(c, location).tables[TableOf(c.pools[location])].entries;
         item in entries && expected == Version(entries[item])
  }

  /** The catalog the mutation asks for. */
  function Requested(c: Catalog, m: Mutation): Catalog
    requires Admissible(c, m)
  {
    match m
    case UpsertItem(item, effects, _) => WithItem(c, item, effects)
    case ArchiveItem(item, _) =>
      c.(items := c.items[item := c.items[item].(active := false, version := c.items[item].version + 1)])
    case UpsertDrop(location, item, _) => WithEntry(Ensured(c, location), TableOf(c.pools[location]), item)
    case RemoveDrop(location, item, _) => WithoutEntry(Ensured(c, location), TableOf(c.pools[location]), item)
  }

  /** What the validator is given: before an item is written, the stored graph
    * with the item's new effects; after a drop is written, the stored graph with
    * the item's own. Archiving and removing are not validated.
    */
  ghost predicate Validated(c: Catalog, m: Mutation)
    requires Admissible(c, m)
  {
    match m
    case UpsertItem(item, effects, _) => !Cyclic(GraphOf(c)[item := DependenciesOf(c.tables, effects)])
    case UpsertDrop(_, item, _) =>
      var written := Requested(c, m);
      !Cyclic(GraphOf(written)[item := DependenciesOf(written.tables, written.items[item].effects)])
    case _ => true
  }

  ghost function Apply(c: Catalog, m: Mutation): Catalog
  {
    if Admissible(c, m) && Validated(c, m) then Requested(c, m) else c
  }

  // ---- the graph under the mutations ---------------------------------------

  lemma EnsuredGraph(c: Catalog, location: string)
    requires location in c.pools
    ensures GraphOf(Ensured(c, location)) == GraphOf(c)
  {
    var id := TableOf(c.pools[location]);
    forall item | item in c.items
      ensures DependenciesOf(Ensured(c, location).tables, c.items[item].effects) ==
              DependenciesOf(c.tables, c.items[item].effects)
    {
      forall effect | effect in c.items[item].effects
        ensures Targets(Ensured(c, location).tables, effect) == Targets(c.tables, effect)
      {
      }
    }
  }

  /** The graph the validator looks at before an item is written is the graph
    * after it is written, also when the item is new and other items already
    * name it.
    */
  lemma ItemGraph(c: Catalog, item: string, effects: seq<Effect>)
    ensures GraphOf(WithItem(c, item, effects)) == GraphOf(c)[item := DependenciesOf(c.tables, effects)]
  {
  }

  /** After a drop is written the validator, given the item's own effects, looks
    * at the stored graph.
    */
  lemma DropGraph(c: Catalog, item: string)
    requires item in c.items
    ensures GraphOf(c)[item := DependenciesOf(c.tables, c.items[item].effects)] == GraphOf(c)
  {
  }

  /** Taking an entry away, or archiving an item, only takes edges away. */
  lemma RemovalsKeepAcyclic(c: Catalog, m: Mutation)
    requires Acyclic(c) && Admissible(c, m) && (m.ArchiveItem? || m.RemoveDrop?)
    ensures Acyclic(Requested(c, m))
  {
    var c' := Requested(c, m);
    if m.RemoveDrop? {
      EnsuredGraph(c, m.location);
      FewerEntries(Ensured(c, m.location), TableOf(c.pools[m.location]), m.item);
    } else {
      assert GraphOf(c') == GraphOf(c);
    }
  }

  lemma FewerEntries(c: Catalog, table: string, item: string)
    requires Acyclic(c) && table in c.tables
    ensures Acyclic(WithoutEntry(c, table, item))
  {
    var c' := WithoutEntry(c, table, item);
    forall a, b | Edge(GraphOf(c'), a, b) ensures Edge(GraphOf(c), a, b) {
      var effect :| effect in c.items[a].effects && b in Targets(c'.tables, effect);
      assert b in Targets(c.tables, effect);
    }
    SubgraphStaysAcyclic(GraphOf(c), GraphOf(c'));
  }

  /** The validator turns away exactly the mutations that would make a cycle,
    * and those it is not asked about cannot.
    */
  lemma ValidatedIff(c: Catalog, m: Mutation)
    requires Acyclic(c) && Admissible(c, m)
    ensures Validated(c, m) <==> Acyclic(Requested(c, m))
  {
    match m
    case UpsertItem(item, effects, _) => ItemGraph(c, item, effects);
    case UpsertDrop(_, item, _) => DropGraph(Requested(c, m), item);
    case _ => RemovalsKeepAcyclic(c, m);
  }

  ghost function ApplyAll(c: Catalog, ms: seq<Mutation>): Catalog
    decreases |ms|
  {
    if ms == [] then c else ApplyAll(Apply(c, ms[0]), ms[1..])
  }

  /** Over every sequence of mutations the graph stays acyclic. */
  lemma {:induction false} AcyclicForever(c: Catalog, ms: seq<Mutation>)
    requires Acyclic(c)
    ensures Acyclic(ApplyAll(c, ms))
    decreases |ms|
  {
    if ms != [] {
      if Admissible(c, ms[0]) {
        ValidatedIff(c, ms[0]);
      }
      AcyclicForever(Apply(c, ms[0]), ms[1..]);
    }
  }

  // ---- edges and mutations by the stored rows ------------------------------

  /** One effect hands an item out: by name, or through an active table with an
    * entry for it.
    */
  predicate HandsOut(c: Catalog, effect: Effect, item: string)
  {
    || (effect.GrantItem? && item != "" && Strip(effect.itemId) == item)
    || (effect.LootTableRoll? && Strip(effect.tableId) != "" && Strip(effect.tableId) in c.tables &&
        c.tables[Strip(effect.tableId)].active && item in c.tables[Strip(effect.tableId)].entries)
  }

  /** What an edge is. */
  lemma EdgeIff(c: Catalog, a: string, b: string)
    ensures Edge(GraphOf(c), a, b) <==>
            a in c.items && b in c.items && exists effect :: effect in c.items[a].effects && HandsOut(c, effect, b)
  {
    if a in c.items {
      forall effect | effect in c.items[a].effects ensures HandsOut(c, effect, b) <==> b in Targets(c.tables, effect) {
      }
    }
  }

  /** An item that hands itself out closes a cycle. */
  lemma OwnItemIsCyclic(c: Catalog, item: string, effect: Effect)
    requires item in c.items && effect in c.items[item].effects && HandsOut(c, effect, item)
    ensures !Acyclic(c)
  {
    EdgeIff(c, item, item);
    assert IsCycle(GraphOf(c), [item, item]);
  }

  /** The stored item after it is written, archived or not before. */
  function ItemWritten(c: Catalog, item: string, effects: seq<Effect>): Catalog
  {
    var version := if item in c.items then c.items[item].version + 1 else 1;
    Catalog(c.items[item := Item(effects, true, version)], c.tables, c.pools)
  }

  /** An existing item is only rewritten at its version, and never into a cycle. */
  lemma UpsertItemIff(c: Catalog, item: string, effects: seq<Effect>, expected: Expected)
    requires Acyclic(c)
    ensures Apply(c, UpsertItem(item, effects, expected)) ==
            if (item in c.items ==> expected == Version(c.items[item].version)) &&
               Acyclic(ItemWritten(c, item, effects))
            then ItemWritten(c, item, effects) else c
  {
    ItemGraph(c, item, effects);
  }

  lemma ArchiveItemIff(c: Catalog, item: string, expected: Expected)
    ensures Apply(c, ArchiveItem(item, expected)) ==
            if item in c.items && expected == Version(c.items[item].version)
            then Catalog(c.items[item := Item(c.items[item].effects, false, c.items[item].version + 1)],
                         c.tables, c.pools)
            else c
  {
  }

  /** The table a location's drops are in: its own, which is created on demand. */
  function DropTable(c: Catalog, location: string): Table
    requires location in c.pools
  {
    match c.pools[location]
    case Linked(id) => if id in c.tables then c.tables[id] else Table(true, map[])
    case Unlinked(_) => Table(true, map[])
  }

  function DropTableId(pool: Pool): string
  {
    match pool
    case Linked(id) => id
    case Unlinked(id) => id
  }

  /** The catalog with these entries in a location's table. */
  function EntriesWritten(c: Catalog, location: string, entries: map<string, nat>): Catalog
    requires location in c.pools
  {
    var id := DropTableId(c.pools[location]);
    Catalog(c.items, c.tables[id := Table(DropTable(c, location).active, entries)], c.pools[location := Linked(id)])
  }

  /** The location's table is there, or its name is free. */
  predicate HasDropTable(c: Catalog, location: string)
  {
    location in c.pools && (c.pools[location].Linked? || c.pools[location].defaultTable !in c.tables)
  }

  /** A drop is entered at its version, or as the first of its item, and never so
    * that it closes a cycle; archived items cannot be dropped.
    */
  lemma UpsertDropIff(c: Catalog, location: string, item: string, expected: Expected)
    requires Acyclic(c)
    ensures var c' := Apply(c, UpsertDrop(location, item, expected));
            if HasDropTable(c, location) && item in c.items && c.items[item].active then
              var entries := DropTable(c, location).entries;
              if item in entries then
                var written := EntriesWritten(c, location, entries[item := entries[item] + 1]);
                c' == if expected == Version(entries[item]) && Acyclic(written) then written else c
              else
                var written := EntriesWritten(c, location, entries[item := 1]);
                c' == if expected == NoVersion && Acyclic(written) then written else c
            else c' == c
  {
    var m := UpsertDrop(location, item, expected);
    if Admissible(c, m) {
      ValidatedIff(c, m);
      DropWritten(c, location, item, expected);
    }
  }

  lemma DropWritten(c: Catalog, location: string, item: string, expected: Expected)
    requires Admissible(c, UpsertDrop(location, item, expected))
    ensures HasDropTable(c, location) && item in c.items && c.items[item].active
    ensures var entries := DropTable(c, location).entries;
            var version := if item in entries then entries[item] + 1 else 1;
            && Requested(c, UpsertDrop(location, item, expected)) ==
               EntriesWritten(c, location, entries[item := version])
            && expected == if item in entries then Version(entries[item]) else NoVersion
  {
    var id := DropTableId(c.pools[location]);
    assert Ensured(c, location).tables[id] == DropTable(c, location);
    var table := DropTable(c, location);
    var version := if item in table.entries then table.entries[item] + 1 else 1;
    assert Ensured(c, location).tables[id := Table(table.active, table.entries[item := version])] ==
           c.tables[id := Table(table.active, table.entries[item := version])];
  }

  lemma RemoveDropIff(c: Catalog, location: string, item: string, expected: Expected)
    ensures var c' := Apply(c, RemoveDrop(location, item, expected));
            if HasDropTable(c, location) && item in c.items && item in DropTable(c, location).entries &&
               expected == Version(DropTable(c, location).entries[item])
            then c' == EntriesWritten(c, location, DropTable(c, location).entries - {item})
            else c' == c
  {
  }

  /** Whatever else the catalog holds, an item is never given an effect that
    * grants the item itself.
    */
  lemma SelfGrantIsRefused(c: Catalog, item: string, effects: seq<Effect>, expected: Expected, id: string)
    requires GrantItem(id) in effects && item != "" && Strip(id) == item
    ensures Apply(c, UpsertItem(item, effects, expected)) == c
  {
    ItemGraph(c, item, effects);
    OwnItemIsCyclic(ItemWritten(c, item, effects), item, GrantItem(id));
  }

  /** Nor is it dropped from an active table that it rolls itself. */
  lemma SelfDropIsRefused(c: Catalog, location: string, item: string, expected: Expected, id: string)
    requires location in c.pools && item in c.items && LootTableRoll(id) in c.items[item].effects
    requires Strip(id) == DropTableId(c.pools[location]) != "" && DropTable(c, location).active
    ensures Apply(c, UpsertDrop(location, item, expected)) == c
  {
    var m := UpsertDrop(location, item, expected);
    if Admissible(c, m) {
      var written := Requested(c, m);
      assert written.items == c.items && HandsOut(written, LootTableRoll(id), item);
      DropGraph(written, item);
      OwnItemIsCyclic(written, item, LootTableRoll(id));
      assert !Validated(c, m);
    }
  }

  /** A mutation that was accepted is not accepted a second time: the version it
    * expects is gone. Only an item that did not exist is written without one.
    */
  lemma AppliedOnce(c: Catalog, m: Mutation)
    requires m.UpsertItem? && m.item !in c.items ==> m.expected != Version(1)
    ensures Apply(Apply(c, m), m) == Apply(c, m)
  {
    if Apply(c, m) != c {
      assert !Admissible(Apply(c, m), m);
    }
  }

  // ---- the service ---------------------------------------------------------

  lemma OneMoreEffect(tables: map<string, Table>, effects: seq<Effect>, effect: Effect)
    ensures DependenciesOf(tables, effects + [effect]) == DependenciesOf(tables, effects) + Targets(tables, effect)
  {
    forall target | target in DependenciesOf(tables, effects) + Targets(tables, effect)
      ensures target in DependenciesOf(tables, effects + [effect])
    {
      if target in DependenciesOf(tables, effects) {
        var e :| e in effects && target in Targets(tables, e);
        assert e in effects + [effect];
      } else {
        assert effect in effects + [effect];
      }
    }
  }

  /** `_dependencies`. */
  method Dependencies(tables: map<string, Table>, effects: seq<Effect>) returns (dependencies: set<string>)
    ensures dependencies == DependenciesOf(tables, effects)
  {
    dependencies := {};
    for i := 0 to |effects|
      invariant dependencies == DependenciesOf(tables, effects[..i])
    {
      var targets := {};
      match effects[i] {
        case GrantItem(id) =>
          var target := Strip(id);
          if target != "" {
            targets := {target};
          }
        case LootTableRoll(id) =>
          var tableId := Strip(id);
          if tableId != "" && tableId in tables && tables[tableId].active {
            targets := tables[tableId].entries.Keys;
          }
        case OtherEffect =>
      }
      dependencies := dependencies + targets;
      assert effects[..i + 1] == effects[..i] + [effects[i]];
      OneMoreEffect(tables, effects[..i], effects[i]);
    }
    assert effects[..|effects|] == effects;
  }

  class CatalogService {
    var items: map<string, Item>
    var tables: map<string, Table>
    var pools: map<string, Pool>

    ghost function View(): Catalog
      reads this
    {
      Catalog(items, tables, pools)
    }

    constructor (c: Catalog)
      ensures View() == c
    {
      items, tables, pools := c.items, c.tables, c.pools;
    }

    /** `validate_item_dependency_graph`: the stored graph with one item's
      * effects replaced.
      */
    method ValidateItemDependencyGraph(item: string, effects: seq<Effect>) returns (r: Outcome<string>)
      ensures r.Raised? <==> Cyclic(GraphOf(View())[item := DependenciesOf(tables, effects)])
      ensures r.Raised? ==> IsCycle(GraphOf(View())[item := DependenciesOf(tables, effects)], r.cycle)
    {
      var graph: Graph<string> := map[];
      var todo := items.Keys;
      while todo != {}
        invariant todo <= items.Keys && graph.Keys == items.Keys - todo
        invariant forall i :: i in graph ==> graph[i] == GraphOf(View())[i]
        decreases todo
      {
        var i :| i in todo;
        var dependencies := Dependencies(tables, items[i].effects);
        graph := graph[i := dependencies];
        todo := todo - {i};
      }
      var dependencies := Dependencies(tables, effects);
      assert graph == GraphOf(View());
      graph := graph[item := dependencies];
      r := Validate(graph);
    }

    /** `upsert_item`: turned away exactly when the version does not match or the
      * catalog with the item would have a cycle.
      */
    method UpsertItem(item: string, effects: seq<Effect>, expected: Expected) returns (accepted: bool)
      modifies this
      ensures var m := Mutation.UpsertItem(item, effects, expected);
              View() == Apply(old(View()), m) &&
              (accepted <==> Admissible(old(View()), m) && Validated(old(View()), m))
    {
      if item in items && expected == NoVersion {
        return false;
      }
      var r := ValidateItemDependencyGraph(item, effects);
      if r.Raised? {
        return false;
      }
      var version := 1;
      if item in items {
        if expected != Version(items[item].version) {
          return false;
        }
        version := items[item].version + 1;
      }
      items := items[item := Item(effects, true, version)];
      return true;
    }

    /** `archive_item`: the graph also holds archived items. */
    method ArchiveItem(item: string, expected: Expected) returns (accepted: bool)
      modifies this`items
      ensures var m := Mutation.ArchiveItem(item, expected);
              View() == Apply(old(View()), m) && (accepted <==> Admissible(old(View()), m))
    {
      if item !in items || expected != Version(items[item].version) {
        return false;
      }
      items := items[item := items[item].(active := false, version := items[item].version + 1)];
      return true;
    }

    /** `_ensure_pool_loot_table`. */
    method EnsurePoolLootTable(location: string) returns (table: string)
      requires CanEnsure(View(), location)
      modifies this`tables, this`pools
      ensures View() == Ensured(old(View()), location) && table == TableOf(old(pools)[location])
    {
      table := TableOf(pools[location]);
      if table !in tables {
        tables := tables[table := Table(true, map[])];
      }
      pools := pools[location := Linked(table)];
    }

    /** The row of an item in a table, at its version or as the first one. */
    method WriteEntry(table: string, item: string, expected: Expected) returns (written: bool)
      requires table in tables
      modifies this`tables
      ensures var entries := old(tables)[table].entries;
              written <==> expected == if item in entries then Version(entries[item]) else NoVersion
      ensures View() == if written then WithEntry(old(View()), table, item) else old(View())
    {
      var entries := tables[table].entries;
      var version := 1;
      if item in entries {
        if expected != Version(entries[item]) {
          return false;
        }
        version := entries[item] + 1;
      } else if expected != NoVersion {
        return false;
      }
      tables := tables[table := tables[table].(entries := entries[item := version])];
      return true;
    }

    /** `upsert_item_drop`: written first, then validated, and rolled back when
      * the search raises.
      */
    method UpsertDrop(location: string, item: string, expected: Expected) returns (accepted: bool)
      modifies this
      ensures var m := Mutation.UpsertDrop(location, item, expected);
              View() == Apply(old(View()), m) &&
              (accepted <==> Admissible(old(View()), m) && Validated(old(View()), m))
    {
      if location !in pools || item !in items || !items[item].active {
        return false;
      }
      if pools[location].Unlinked? && pools[location].defaultTable in tables {
        return false;
      }
      var savedTables, savedPools := tables, pools;
      var table := EnsurePoolLootTable(location);
      var written := WriteEntry(table, item, expected);
      if !written {
        tables, pools := savedTables, savedPools;
        return false;
      }
      var r := ValidateItemDependencyGraph(item, items[item].effects);
      if r.Raised? {
        tables, pools := savedTables, savedPools;
        return false;
      }
      return true;
    }

    /** `remove_item_drop`. */
    method RemoveDrop(location: string, item: string, expected: Expected) returns (accepted: bool)
      modifies this
      ensures var m := Mutation.RemoveDrop(location, item, expected);
              View() == Apply(old(View()), m) && (accepted <==> Admissible(old(View()), m))
    {
      if location !in pools || item !in items {
        return false;
      }
      if pools[location].Unlinked? && pools[location].defaultTable in tables {
        return false;
      }
      var savedTables, savedPools := tables, pools;
      var table := EnsurePoolLootTable(location);
      var entries := tables[table].entries;
      if item !in entries || expected != Version(entries[item]) {
        tables, pools := savedTables, savedPools;
        return false;
      }
      tables := tables[table := tables[table].(entries := entries - {item})];
      return true;
    }
  }
}
