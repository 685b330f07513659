/**
 What a restore drops before the dump's own script runs. Names are compared as the strings the dump's table
 of contents lists; what `DROP ... CASCADE` takes along is a relation between the objects of the target.
 */
module PostgresReplacement {
  import opened Sequences
  import Order

  datatype Kind =
    | Table | PartitionedTable | View | MaterializedView | ForeignTable | Sequence
    | ForeignKey | Type | Domain | Function | Procedure | Aggregate
    | Role | Version

  /** A row of the catalog query. */
  datatype LiveObject = LiveObject(kind: Kind, schema: string, name: string, constraint: string, quoted: string,
                                   refSchema: string)

  /** The entry type in the dump's listing, which is also the object type of the DROP statement. */
  function ObjectType(kind: Kind): string {
    match kind
    case Table => "TABLE"
    case PartitionedTable => "TABLE"
    case View => "VIEW"
    case MaterializedView => "MATERIALIZED VIEW"
    case ForeignTable => "FOREIGN TABLE"
    case Sequence => "SEQUENCE"
    case ForeignKey => "FK CONSTRAINT"
    case Type => "TYPE"
    case Domain => "DOMAIN"
    case Function => "FUNCTION"
    case Procedure => "PROCEDURE"
    case Aggregate => "AGGREGATE"
    case Role => "ROLE"
    case Version => "VERSION"
  }

  const RELATION_TYPES := ["TABLE", "VIEW", "MATERIALIZED VIEW", "FOREIGN TABLE", "SEQUENCE"]

  const DROP_ORDER := [
    "MATERIALIZED VIEW", "VIEW", "FOREIGN TABLE", "TABLE", "SEQUENCE",
    "AGGREGATE", "PROCEDURE", "FUNCTION", "DOMAIN", "TYPE"
  ]

  predicate IsRelation(o: LiveObject) {
    ObjectType(o.kind) in RELATION_TYPES
  }

  /** A routine, a type or a domain. */
  predicate IsOther(o: LiveObject) {
    o.kind.Aggregate? || o.kind.Function? || o.kind.Procedure? || o.kind.Domain? || o.kind.Type?
  }

  predicate IsObject(o: LiveObject) {
    !o.kind.Role? && !o.kind.Version?
  }

  /** `LiveObject.key` */
  function KeyOf(o: LiveObject): string {
    var key := ObjectType(o.kind) + " " + o.schema + " " + o.name;
    if o.kind.ForeignKey? then key + " " + o.constraint else key
  }

  type Keys = set<string>

  predicate InDump(o: LiveObject, keys: Keys) {
    KeyOf(o) in keys
  }

  /** The dump holds a relation of the schema. */
  predicate DumpHolds(schema: string, keys: Keys) {
    exists t, k :: t in RELATION_TYPES && k in keys && t + " " + schema + " " <= k
  }

  datatype Replacement = Replacement(
    relations: seq<LiveObject>, others: seq<LiveObject>, schemas: set<string>, recreated: set<string>,
    partitioned: seq<LiveObject>, absent: seq<LiveObject>)

  /** What `plan_replacement` ends in: no replacing restore, a refusal, or what to drop. */
  datatype Plan = Plain | Refused | Replace(what: Replacement)

  function SnapshotSchemas(objects: seq<LiveObject>, keys: Keys): set<string> {
    set o | o in objects && IsRelation(o) && DumpHolds(o.schema, keys) :: o.schema
  }

  const SCHEMA_KEY := "SCHEMA - "

  /** The schemas the dump creates itself. */
  function Recreated(keys: Keys): set<string> {
    set k | k in keys && SCHEMA_KEY <= k && k != SCHEMA_KEY + "public" :: k[|SCHEMA_KEY|..]
  }

  /** Those it lists but for `public`, which every database has. */
  lemma RecreatedExactly(schema: string, keys: Keys)
    ensures schema in Recreated(keys) <==> "SCHEMA - " + schema in keys && schema != "public"
  {
    var key := "SCHEMA - " + schema;
    assert key[9..] == schema;
    if schema in Recreated(keys) {
      var k :| k in keys && SCHEMA_KEY <= k && k != SCHEMA_KEY + "public" && k[|SCHEMA_KEY|..] == schema;
      assert k == SCHEMA_KEY + schema;
    }
    assert key == SCHEMA_KEY + "public" ==> schema == "public" by { assert (SCHEMA_KEY + "public")[9..] == "public"; }
  }

  predicate IsAbsent(o: LiveObject, keys: Keys, schemas: set<string>) {
    !InDump(o, keys) && (o.schema in schemas || o.refSchema in schemas || (IsOther(o) && o.schema in Recreated(keys)))
  }

  function Partitioned(objects: seq<LiveObject>, keys: Keys): seq<LiveObject> {
    Filter(objects, (o: LiveObject) => o.kind.PartitionedTable? && InDump(o, keys))
  }

  function Absent(objects: seq<LiveObject>, keys: Keys): seq<LiveObject> {
    Filter(objects, o => IsAbsent(o, keys, SnapshotSchemas(objects, keys)))
  }

  /** Every relation of the snapshot's schemas. */
  function Replaced(objects: seq<LiveObject>, keys: Keys): seq<LiveObject> {
    Filter(objects, (o: LiveObject) => IsRelation(o) && o.schema in SnapshotSchemas(objects, keys))
  }

  /** A foreign key of a table that is not in the snapshot either is not mentioned. */
  function Reported(absent: seq<LiveObject>): seq<LiveObject> {
    var gone := set o | o in absent && !o.kind.ForeignKey? :: (o.schema, o.name);
    Filter(absent, (o: LiveObject) => !o.kind.ForeignKey? || (o.schema, o.name) !in gone)
  }

  function Others(absent: seq<LiveObject>): seq<LiveObject> {
    Filter(Reported(absent), o => IsOther(o))
  }

  function PlanReplacement(objects: seq<LiveObject>, keys: Keys): Plan {
    var partitioned, absent, replaced := Partitioned(objects, keys), Absent(objects, keys), Replaced(objects, keys);
    if objects == [] || (partitioned == [] && absent == []) then Plain
    else if replaced != [] && (forall o :: o in replaced ==> !InDump(o, keys)) then Refused
    else Replace(Replacement(replaced, Others(absent), SnapshotSchemas(objects, keys), Recreated(keys), partitioned,
                             Reported(absent)))
  }

  // ---- The prelude ----

  datatype Statement = Drop(what: string, objects: seq<LiveObject>) | DropSchemas(schemas: set<string>)

  function Prelude(plan: Replacement, types: seq<string>): seq<Statement> {
    if types == [] then []
    else
      var named := Filter(plan.relations + plan.others, (o: LiveObject) => ObjectType(o.kind) == types[0]);
      (if named == [] then [] else [Drop(types[0], named)]) + Prelude(plan, types[1..])
  }

  lemma {:induction false} PreludeConcat(plan: Replacement, a: seq<string>, b: seq<string>)
    ensures Prelude(plan, a + b) == Prelude(plan, a) + Prelude(plan, b)
  {
    if a == [] {
      assert a + b == b;
    } else {
      HeadAndTail(a, b);
      PreludeConcat(plan, a[1..], b);
    }
  }

  function WholePrelude(plan: Replacement): seq<Statement> {
    Prelude(plan, DROP_ORDER) + (if plan.recreated == {} then [] else [DropSchemas(plan.recreated)])
  }

  /** `replacement_prelude`, without the settings around the drops. */
  method ReplacementPrelude(plan: Replacement) returns (lines: seq<Statement>)
    ensures lines == WholePrelude(plan)
  {
    lines := [];
    var i := 0;
    while i < |DROP_ORDER|
      invariant i <= |DROP_ORDER| && lines == Prelude(plan, DROP_ORDER[..i])
    {
      TakeOneMore(DROP_ORDER, i);
      PreludeConcat(plan, DROP_ORDER[..i], [DROP_ORDER[i]]);
      var named := Filter(plan.relations + plan.others, (o: LiveObject) => ObjectType(o.kind) == DROP_ORDER[i]);
      if named != [] {
        lines := lines + [Drop(DROP_ORDER[i], named)];
      }
      i := i + 1;
    }
    assert DROP_ORDER[..i] == DROP_ORDER;
    if plan.recreated != {} {
      lines := lines + [DropSchemas(plan.recreated)];
    }
  }

  // ---- What is named ----

  function TimesNamed(o: LiveObject, lines: seq<Statement>): nat {
    if lines == [] then 0
    else (if lines[0].Drop? then multiset(lines[0].objects)[o] else 0) + TimesNamed(o, lines[1..])
  }

  lemma {:induction false} TimesNamedConcat(o: LiveObject, a: seq<Statement>, b: seq<Statement>)
    ensures TimesNamed(o, a + b) == TimesNamed(o, a) + TimesNamed(o, b)
  {
    if a == [] {
      assert a + b == b;
    } else {
      HeadAndTail(a, b);
      TimesNamedConcat(o, a[1..], b);
    }
  }

  /** One statement for each type, and in it every object of that type as often as the plan lists it. */
  lemma {:induction false} TimesNamedInPrelude(plan: Replacement, types: seq<string>, o: LiveObject)
    requires Order.Distinct(types)
    ensures TimesNamed(o, Prelude(plan, types))
         == if ObjectType(o.kind) in types then multiset(plan.relations + plan.others)[o] else 0
  {
    if types != [] {
      var all := plan.relations + plan.others;
      var ofType := (x: LiveObject) => ObjectType(x.kind) == types[0];
      var head := if Filter(all, ofType) == [] then [] else [Drop(types[0], Filter(all, ofType))];
      TimesNamedInPrelude(plan, types[1..], o);
      TimesInFilter(all, ofType, o);
      TimesNamedConcat(o, head, Prelude(plan, types[1..]));
      assert head != [] ==> head[1..] == [];
    }
  }

  /**
   What a restore drops by name: the relations of the snapshot's schemas, and routines and types there the dump
   lacks.
   */
  predicate ToDrop(o: LiveObject, objects: seq<LiveObject>, keys: Keys) {
    var schemas := SnapshotSchemas(objects, keys);
    && o in objects
    && ((IsRelation(o) && o.schema in schemas) || (IsOther(o) && IsAbsent(o, keys, schemas)))
  }

  lemma TimesOther(absent: seq<LiveObject>, o: LiveObject)
    ensures multiset(Others(absent))[o] == if IsOther(o) then multiset(absent)[o] else 0
  {
    var gone := set x | x in absent && !x.kind.ForeignKey? :: (x.schema, x.name);
    TimesInFilter(absent, (x: LiveObject) => !x.kind.ForeignKey? || (x.schema, x.name) !in gone, o);
    TimesInFilter(Reported(absent), x => IsOther(x), o);
  }

  lemma TimesPlanned(objects: seq<LiveObject>, keys: Keys, o: LiveObject)
    requires Order.Distinct(objects)
    ensures multiset(Replaced(objects, keys) + Others(Absent(objects, keys)))[o]
      == if ToDrop(o, objects, keys) then 1 else 0
  {
    var schemas := SnapshotSchemas(objects, keys);
    TimesInFilter(objects, (x: LiveObject) => IsRelation(x) && x.schema in schemas, o);
    TimesInFilter(objects, x => IsAbsent(x, keys, schemas), o);
    TimesOther(Absent(objects, keys), o);
    Order.DistinctOnce(objects, o);
    KindsDiffer(o);
  }

  lemma KindsDiffer(o: LiveObject)
    ensures IsObject(o) <==> IsRelation(o) || IsOther(o) || o.kind.ForeignKey?
    ensures !(IsRelation(o) && IsOther(o)) && !(IsRelation(o) && o.kind.ForeignKey?)
  {
  }

  /**
   Every relation of the snapshot's schemas, and every absent routine and type planned, is named in exactly
   one DROP, once; nothing else is named, but for the schemas the dump creates.
   */
  lemma NamedExactlyOnce(objects: seq<LiveObject>, keys: Keys, o: LiveObject)
    requires Order.Distinct(objects) && PlanReplacement(objects, keys).Replace?
    ensures TimesNamed(o, WholePrelude(PlanReplacement(objects, keys).what))
      == if ToDrop(o, objects, keys) then 1 else 0
  {
    TimesPlanned(objects, keys, o);
    TimesNamedWhole(PlanReplacement(objects, keys).what, o);
    KindsDiffer(o);
    DropOrderCovers(o);
  }

  lemma TimesNamedWhole(plan: Replacement, o: LiveObject)
    ensures TimesNamed(o, WholePrelude(plan))
         == if ObjectType(o.kind) in DROP_ORDER then multiset(plan.relations + plan.others)[o] else 0
  {
    var last := if plan.recreated == {} then [] else [DropSchemas(plan.recreated)];
    DropOrderIsDistinct();
    TimesNamedInPrelude(plan, DROP_ORDER, o);
    TimesNamedConcat(o, Prelude(plan, DROP_ORDER), last);
    assert TimesNamed(o, last) == 0;
  }

  lemma DropOrderIsDistinct()
    ensures Order.Distinct(DROP_ORDER)
  {
  }

  lemma DropOrderCovers(o: LiveObject)
    ensures IsRelation(o) || IsOther(o) ==> ObjectType(o.kind) in DROP_ORDER
  {
  }

  // ---- What is left ----

  /** Whether the first object depends on the second: `DROP ... CASCADE` of the second takes the first along. */
  type Depends = (LiveObject, LiveObject) -> bool

  /** A set of objects that is gone once the prelude has run: what it names, and all that depends on something gone. */
  ghost predicate IsGone(gone: set<LiveObject>, objects: seq<LiveObject>, depends: Depends, lines: seq<Statement>) {
    && (forall o :: o in objects && TimesNamed(o, lines) > 0 ==> o in gone)
    && (forall o, line :: o in objects && line in lines && line.DropSchemas? && o.schema in line.schemas ==> o in gone)
    && (forall o, on :: o in objects && on in gone && depends(o, on) ==> o in gone)
  }

  ghost predicate OnTable(key: LiveObject, table: LiveObject, objects: seq<LiveObject>, depends: Depends,
                          schema: string) {
    table in objects && IsRelation(table) && table.schema == schema && depends(key, table)
  }

  /** The tables at both ends of every foreign key are among the rows, and the key depends on them. */
  ghost predicate KeysHaveTables(objects: seq<LiveObject>, depends: Depends) {
    forall o :: o in objects && o.kind.ForeignKey? ==>
      && (exists table :: OnTable(o, table, objects, depends, o.schema))
      && (exists table :: OnTable(o, table, objects, depends, o.refSchema))
  }

  lemma NamedIsGone(objects: seq<LiveObject>, keys: Keys, depends: Depends, gone: set<LiveObject>, o: LiveObject)
    requires Order.Distinct(objects) && PlanReplacement(objects, keys).Replace? && ToDrop(o, objects, keys)
    requires IsGone(gone, objects, depends, WholePrelude(PlanReplacement(objects, keys).what))
    ensures o in gone
  {
    NamedExactlyOnce(objects, keys, o);
  }

  lemma ForeignKeyIsGone(objects: seq<LiveObject>, keys: Keys, depends: Depends, gone: set<LiveObject>, o: LiveObject,
                         schema: string)
    requires Order.Distinct(objects) && PlanReplacement(objects, keys).Replace? && KeysHaveTables(objects, depends)
    requires IsGone(gone, objects, depends, WholePrelude(PlanReplacement(objects, keys).what))
    requires o in objects && o.kind.ForeignKey? && schema in SnapshotSchemas(objects, keys)
    requires (schema == o.schema || schema == o.refSchema)
    ensures o in gone
  {
    var table :| OnTable(o, table, objects, depends, schema);
    NamedIsGone(objects, keys, depends, gone, table);
  }

  /**
   After the prelude, what is left in a snapshot schema is a routine or type that is in the dump; no foreign key
   onto such a schema is left, and nothing at all in a schema the dump creates.
   */
  lemma WhatIsLeftIsInTheDump(objects: seq<LiveObject>, keys: Keys, depends: Depends, gone: set<LiveObject>,
                              o: LiveObject)
    requires Order.Distinct(objects) && PlanReplacement(objects, keys).Replace? && KeysHaveTables(objects, depends)
    requires IsGone(gone, objects, depends, WholePrelude(PlanReplacement(objects, keys).what))
    requires o in objects && IsObject(o) && o !in gone
    ensures o.schema in SnapshotSchemas(objects, keys) ==> InDump(o, keys) && IsOther(o)
    ensures o.kind.ForeignKey? ==> o.refSchema !in SnapshotSchemas(objects, keys)
    ensures o.schema !in Recreated(keys)
  {
    var schemas := SnapshotSchemas(objects, keys);
    KindsDiffer(o);
    if ToDrop(o, objects, keys) {
      NamedIsGone(objects, keys, depends, gone, o);
    }
    if o.kind.ForeignKey? && o.schema in schemas {
      ForeignKeyIsGone(objects, keys, depends, gone, o, o.schema);
    }
    if o.kind.ForeignKey? && o.refSchema in schemas {
      ForeignKeyIsGone(objects, keys, depends, gone, o, o.refSchema);
    }
    var lines, plan := WholePrelude(PlanReplacement(objects, keys).what), PlanReplacement(objects, keys).what;
    if plan.recreated != {} {
      assert lines[|lines| - 1] == DropSchemas(plan.recreated);
      assert DropSchemas(plan.recreated) in lines;
    }
  }

  lemma InPlan(objects: seq<LiveObject>, keys: Keys, o: LiveObject)
    ensures o in Replaced(objects, keys) <==>
      o in objects && IsRelation(o) && o.schema in SnapshotSchemas(objects, keys)
    ensures o in Absent(objects, keys) <==> o in objects && IsAbsent(o, keys, SnapshotSchemas(objects, keys))
    ensures o in Partitioned(objects, keys) <==> o in objects && o.kind.PartitionedTable? && InDump(o, keys)
  {
  }

  /**
   Without a replacing restore, nothing in the snapshot's schemas is missing from the dump, and no partitioned
   table stands in its way.
   */
  lemma PlainLeavesNothingElse(objects: seq<LiveObject>, keys: Keys, o: LiveObject)
    requires PlanReplacement(objects, keys).Plain? && o in objects
    ensures o.schema in SnapshotSchemas(objects, keys) || o.refSchema in SnapshotSchemas(objects, keys) ==>
      InDump(o, keys)
    ensures o.kind.PartitionedTable? ==> !InDump(o, keys)
  {
    InPlan(objects, keys, o);
  }

  /**
   Relations are only ever dropped where the dump holds at least one of them: another application's database is
   refused.
   */
  lemma ReplacingSharesARelation(objects: seq<LiveObject>, keys: Keys, o: LiveObject)
    requires PlanReplacement(objects, keys).Replace? && IsRelation(o) && ToDrop(o, objects, keys)
    ensures exists shared :: ToDrop(shared, objects, keys) && IsRelation(shared) && InDump(shared, keys)
  {
    KindsDiffer(o);
    InPlan(objects, keys, o);
    var shared :| shared in Replaced(objects, keys) && InDump(shared, keys);
    InPlan(objects, keys, shared);
    assert ToDrop(shared, objects, keys);
  }
}
