/**
 What a replacing restore promises, told by the target's objects and the keys of the dump: when there is nothing to
 replace, when it is refused, and what is dropped, once and in which order.
 */
module PostgresRules {
  import opened Sequences
  import opened Texts
  import opened PostgresReplacement
  import Order

  // ---- Objects and keys ----

  predicate IsTableLike(o: LiveObject) {
    || o.kind.Table? || o.kind.PartitionedTable? || o.kind.View? || o.kind.MaterializedView? || o.kind.ForeignTable?
    || o.kind.Sequence?
  }

  predicate IsRoutineOrType(o: LiveObject) {
    o.kind.Function? || o.kind.Procedure? || o.kind.Aggregate? || o.kind.Type? || o.kind.Domain?
  }

  lemma KindsAre(o: LiveObject)
    ensures IsRelation(o) <==> IsTableLike(o)
    ensures IsOther(o) <==> IsRoutineOrType(o)
  {
  }

  /** The key is the entry of the object in the dump's listing. */
  lemma KeyIs(o: LiveObject)
    ensures o.kind.Table? || o.kind.PartitionedTable? ==> KeyOf(o) == "TABLE " + o.schema + " " + o.name
    ensures o.kind.View? ==> KeyOf(o) == "VIEW " + o.schema + " " + o.name
    ensures o.kind.MaterializedView? ==> KeyOf(o) == "MATERIALIZED VIEW " + o.schema + " " + o.name
    ensures o.kind.ForeignTable? ==> KeyOf(o) == "FOREIGN TABLE " + o.schema + " " + o.name
    ensures o.kind.Sequence? ==> KeyOf(o) == "SEQUENCE " + o.schema + " " + o.name
    ensures o.kind.Type? ==> KeyOf(o) == "TYPE " + o.schema + " " + o.name
    ensures o.kind.Domain? ==> KeyOf(o) == "DOMAIN " + o.schema + " " + o.name
    ensures o.kind.Function? ==> KeyOf(o) == "FUNCTION " + o.schema + " " + o.name
    ensures o.kind.Procedure? ==> KeyOf(o) == "PROCEDURE " + o.schema + " " + o.name
    ensures o.kind.Aggregate? ==> KeyOf(o) == "AGGREGATE " + o.schema + " " + o.name
    ensures o.kind.ForeignKey? ==> KeyOf(o) == "FK CONSTRAINT " + o.schema + " " + o.name + " " + o.constraint
  {
    TypeAndBlank(ObjectType(o.kind), o.schema, o.name);
  }

  lemma TypeAndBlank(t: string, schema: string, name: string)
    ensures t + " " + schema + " " + name == (t + " ") + schema + " " + name
  {
  }

  /** One of the keys is that of a relation of the schema. */
  ghost predicate HoldsRelation(schema: string, keys: Keys) {
    exists k :: k in keys && (StartsWith(k, "TABLE " + schema + " ") || StartsWith(k, "VIEW " + schema + " ")
      || StartsWith(k, "MATERIALIZED VIEW " + schema + " ") || StartsWith(k, "FOREIGN TABLE " + schema + " ")
      || StartsWith(k, "SEQUENCE " + schema + " "))
  }

  lemma HoldsMeans(schema: string, keys: Keys)
    ensures DumpHolds(schema, keys) <==> HoldsRelation(schema, keys)
  {
    forall k: string
      ensures (exists t :: t in RELATION_TYPES && t + " " + schema + " " <= k) <==>
        (StartsWith(k, "TABLE " + schema + " ") || StartsWith(k, "VIEW " + schema + " ")
         || StartsWith(k, "MATERIALIZED VIEW " + schema + " ") || StartsWith(k, "FOREIGN TABLE " + schema + " ")
         || StartsWith(k, "SEQUENCE " + schema + " "))
    {
      OneOfFive(schema, k);
    }
  }

  lemma OneOfFive(schema: string, k: string)
    ensures (exists t :: t in RELATION_TYPES && t + " " + schema + " " <= k) <==>
      (StartsWith(k, "TABLE " + schema + " ") || StartsWith(k, "VIEW " + schema + " ")
       || StartsWith(k, "MATERIALIZED VIEW " + schema + " ") || StartsWith(k, "FOREIGN TABLE " + schema + " ")
       || StartsWith(k, "SEQUENCE " + schema + " "))
  {
    assert RELATION_TYPES[0] == "TABLE" && RELATION_TYPES[1] == "VIEW" && RELATION_TYPES[2] == "MATERIALIZED VIEW"
      && RELATION_TYPES[3] == "FOREIGN TABLE" && RELATION_TYPES[4] == "SEQUENCE";
    assert "TABLE" + " " == "TABLE " && "VIEW" + " " == "VIEW " && "MATERIALIZED VIEW" + " " == "MATERIALIZED VIEW "
      && "FOREIGN TABLE" + " " == "FOREIGN TABLE " && "SEQUENCE" + " " == "SEQUENCE ";
  }

  /** Target and dump both hold relations of the schema. */
  ghost predicate IsInSnapshot(schema: string, objects: seq<LiveObject>, keys: Keys) {
    HoldsRelation(schema, keys) && exists o :: o in objects && IsTableLike(o) && o.schema == schema
  }

  lemma SchemasExactly(objects: seq<LiveObject>, keys: Keys, schema: string)
    ensures schema in SnapshotSchemas(objects, keys) <==> IsInSnapshot(schema, objects, keys)
  {
    HoldsMeans(schema, keys);
    forall o ensures IsRelation(o) <==> IsTableLike(o) {
      KindsAre(o);
    }
  }

  /** The dump creates the schema itself. */
  predicate IsRecreated(schema: string, keys: Keys) {
    "SCHEMA - " + schema in keys && schema != "public"
  }

  /**
   Not in the dump, but in a schema of the snapshot, or a foreign key onto one, or a routine or type in a schema the
   dump creates: it stands in the dump's way.
   */
  ghost predicate IsInTheWay(o: LiveObject, objects: seq<LiveObject>, keys: Keys) {
    KeyOf(o) !in keys
    && (IsInSnapshot(o.schema, objects, keys) || IsInSnapshot(o.refSchema, objects, keys)
        || (IsRoutineOrType(o) && IsRecreated(o.schema, keys)))
  }

  lemma AbsentMeans(objects: seq<LiveObject>, keys: Keys, o: LiveObject)
    ensures IsAbsent(o, keys, SnapshotSchemas(objects, keys)) <==> IsInTheWay(o, objects, keys)
  {
    SchemasExactly(objects, keys, o.schema);
    SchemasExactly(objects, keys, o.refSchema);
    RecreatedExactly(o.schema, keys);
    KindsAre(o);
  }

  /** What is replaced: a relation of a schema of the snapshot. */
  ghost predicate IsReplaced(o: LiveObject, objects: seq<LiveObject>, keys: Keys) {
    o in objects && IsTableLike(o) && IsInSnapshot(o.schema, objects, keys)
  }

  // ---- The plan ----

  /** Nothing stands in the way, and no partitioned table of the dump is in the target. */
  ghost predicate NothingToReplace(objects: seq<LiveObject>, keys: Keys) {
    forall o :: o in objects ==> !IsInTheWay(o, objects, keys) && !(o.kind.PartitionedTable? && KeyOf(o) in keys)
  }

  ghost predicate SharesNothing(objects: seq<LiveObject>, keys: Keys) {
    && (exists o :: IsReplaced(o, objects, keys))
    && forall o :: IsReplaced(o, objects, keys) ==> KeyOf(o) !in keys
  }

  lemma PlannedMeans(objects: seq<LiveObject>, keys: Keys, o: LiveObject)
    ensures o in Replaced(objects, keys) <==> IsReplaced(o, objects, keys)
    ensures o in Absent(objects, keys) <==> o in objects && IsInTheWay(o, objects, keys)
    ensures o in Partitioned(objects, keys) <==> o in objects && o.kind.PartitionedTable? && KeyOf(o) in keys
  {
    InPlan(objects, keys, o);
    SchemasExactly(objects, keys, o.schema);
    AbsentMeans(objects, keys, o);
    KindsAre(o);
  }

  lemma NoneIn(xs: seq<LiveObject>)
    ensures xs == [] <==> forall o :: o !in xs
  {
    if xs != [] {
      assert xs[0] in xs;
    }
  }

  /**
   A plain restore exactly if there is nothing to replace; else it is refused exactly if the snapshot's schemas hold
   relations in the target, of which the dump holds none.
   */
  lemma PlanExactly(objects: seq<LiveObject>, keys: Keys)
    ensures PlanReplacement(objects, keys).Plain? <==> NothingToReplace(objects, keys)
    ensures PlanReplacement(objects, keys).Refused? <==>
      !NothingToReplace(objects, keys) && SharesNothing(objects, keys)
  {
    forall o: LiveObject
      ensures o in Replaced(objects, keys) <==> IsReplaced(o, objects, keys)
      ensures o in Absent(objects, keys) <==> o in objects && IsInTheWay(o, objects, keys)
      ensures o in Partitioned(objects, keys) <==> o in objects && o.kind.PartitionedTable? && KeyOf(o) in keys
    {
      PlannedMeans(objects, keys, o);
    }
    NoneIn(Absent(objects, keys));
    NoneIn(Partitioned(objects, keys));
    NoneIn(Replaced(objects, keys));
  }

  /** Each relation of the snapshot's schemas, and each routine or type in the way, is dropped by name, once. */
  lemma DroppedExactlyOnce(objects: seq<LiveObject>, keys: Keys, o: LiveObject)
    requires Order.Distinct(objects) && PlanReplacement(objects, keys).Replace?
    ensures TimesNamed(o, WholePrelude(PlanReplacement(objects, keys).what))
      == if IsReplaced(o, objects, keys) || (o in objects && IsRoutineOrType(o) && IsInTheWay(o, objects, keys)) then 1
         else 0
  {
    NamedExactlyOnce(objects, keys, o);
    SchemasExactly(objects, keys, o.schema);
    AbsentMeans(objects, keys, o);
    KindsAre(o);
  }

  /** And every schema the dump creates is dropped whole, by the last statement. */
  lemma SchemasDroppedExactly(objects: seq<LiveObject>, keys: Keys, schema: string)
    requires PlanReplacement(objects, keys).Replace?
    ensures IsRecreated(schema, keys) <==>
      DropsAtLast(WholePrelude(PlanReplacement(objects, keys).what), schema)
  {
    RecreatedExactly(schema, keys);
    LastOfPrelude(PlanReplacement(objects, keys).what, schema);
  }

  ghost predicate DropsAtLast(lines: seq<Statement>, schema: string) {
    lines != [] && lines[|lines| - 1].DropSchemas? && schema in lines[|lines| - 1].schemas
  }

  lemma LastOfPrelude(plan: Replacement, schema: string)
    ensures DropsAtLast(WholePrelude(plan), schema) <==> schema in plan.recreated
  {
    OnlyDrops(plan, DROP_ORDER);
    LastIs(Prelude(plan, DROP_ORDER), plan.recreated, schema);
  }

  lemma LastIs(drops: seq<Statement>, schemas: set<string>, schema: string)
    requires forall line :: line in drops ==> line.Drop?
    ensures DropsAtLast(drops + if schemas == {} then [] else [DropSchemas(schemas)], schema) <==> schema in schemas
  {
    if drops != [] {
      assert drops[|drops| - 1] in drops;
    }
    assert drops + [] == drops;
  }

  lemma {:induction false} OnlyDrops(plan: Replacement, types: seq<string>)
    ensures forall line :: line in Prelude(plan, types) ==> line.Drop? && line.what in types
  {
    if types != [] {
      OnlyDrops(plan, types[1..]);
    }
  }

  /** What depends on others comes first: views before tables, tables before sequences, routines before types. */
  function Rank(what: string): nat {
    if what == "MATERIALIZED VIEW" then 0
    else if what == "VIEW" then 1
    else if what == "FOREIGN TABLE" then 2
    else if what == "TABLE" then 3
    else if what == "SEQUENCE" then 4
    else if what == "AGGREGATE" then 5
    else if what == "PROCEDURE" then 6
    else if what == "FUNCTION" then 7
    else if what == "DOMAIN" then 8
    else 9
  }

  ghost predicate AreRanked(types: seq<string>) {
    forall i, j :: 0 <= i < j < |types| ==> Rank(types[i]) < Rank(types[j])
  }

  ghost predicate AreInOrder(lines: seq<Statement>) {
    forall i, j :: 0 <= i < j < |lines| && lines[j].Drop? ==>
      lines[i].Drop? && Rank(lines[i].what) < Rank(lines[j].what)
  }

  lemma {:induction false} PreludeInOrder(plan: Replacement, types: seq<string>)
    requires AreRanked(types)
    ensures AreInOrder(Prelude(plan, types))
  {
    if types != [] {
      var rest := Prelude(plan, types[1..]);
      PreludeInOrder(plan, types[1..]);
      OnlyDrops(plan, types[1..]);
      forall line | line in rest ensures line.Drop? && Rank(types[0]) < Rank(line.what) {
        var k :| 0 <= k < |types[1..]| && types[1..][k] == line.what;
        assert types[k + 1] == line.what;
      }
    }
  }

  /** The statements come in this order, each type in one of them, the schemas last. */
  lemma DropsInOrder(plan: Replacement)
    ensures AreInOrder(WholePrelude(plan))
  {
    OrderIsRanked();
    PreludeInOrder(plan, DROP_ORDER);
    SchemasAtLast(Prelude(plan, DROP_ORDER), plan.recreated);
  }

  lemma OrderIsRanked()
    ensures AreRanked(DROP_ORDER)
  {
    assert forall i :: 0 <= i < |DROP_ORDER| ==> Rank(DROP_ORDER[i]) == i;
  }

  lemma SchemasAtLast(drops: seq<Statement>, schemas: set<string>)
    requires AreInOrder(drops)
    ensures AreInOrder(drops + if schemas == {} then [] else [DropSchemas(schemas)])
  {
  }

  /** Each statement names objects of its own type only. */
  lemma {:induction false} DropsOfOneType(plan: Replacement, types: seq<string>, line: Statement, o: LiveObject)
    requires line in Prelude(plan, types) && line.Drop? && o in line.objects
    ensures ObjectType(o.kind) == line.what
  {
    var named := Filter(plan.relations + plan.others, (x: LiveObject) => ObjectType(x.kind) == types[0]);
    if line != Drop(types[0], named) {
      DropsOfOneType(plan, types[1..], line, o);
    }
  }

  ghost predicate TableIsMissing(key: LiveObject, objects: seq<LiveObject>, keys: Keys) {
    exists t :: t in objects && IsInTheWay(t, objects, keys) && !t.kind.ForeignKey?
      && t.schema == key.schema && t.name == key.name
  }

  /** What is logged as missing from the dump: all in the way, but no foreign key of a table that is missing itself. */
  lemma MissingExactly(objects: seq<LiveObject>, keys: Keys, o: LiveObject)
    requires PlanReplacement(objects, keys).Replace?
    ensures o in PlanReplacement(objects, keys).what.absent <==>
      && o in objects && IsInTheWay(o, objects, keys)
      && !(o.kind.ForeignKey? && TableIsMissing(o, objects, keys))
  {
    var absent := Absent(objects, keys);
    forall t: LiveObject ensures t in absent <==> t in objects && IsInTheWay(t, objects, keys) {
      PlannedMeans(objects, keys, t);
    }
    var gone := set t | t in absent && !t.kind.ForeignKey? :: (t.schema, t.name);
    assert o in Reported(absent) <==> o in absent && (!o.kind.ForeignKey? || (o.schema, o.name) !in gone);
  }
}
