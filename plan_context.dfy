/** The physical-plan context: the column-id counter and the maps that give each
    table column and each request column a unique id, and the two-phase protocol
    (InitSchema, then FinishSchema) by which operators are created and rebuilt.
    Operators are values; their own InitSchema, FinishSchema and WithNewChildren
    are parameters, bundled in an OpBehaviour. InitSchema takes its column ids
    from the context, so creating or rebuilding an operator may allocate ids. */
module PlanContext {
  import opened Wrappers

  /** A physical operator, reduced to what the context reads and writes. */
  datatype PhysicalOp = PhysicalOp(kind: string, producers: seq<PhysicalOp>, limitCnt: int)

  /** A column id that an operator's InitSchema asks the context for: the id of
      a table column (GetSourceID), of a request column (GetRequestSourceID), or
      a fresh id for a computed column (GetNewColumnID). */
  datatype IdRequest =
    | SourceColumn(table: string, column: string)
    | RequestColumn(table: string, column: string)
    | NewColumn

  /** The operator's own virtual methods. InitSchema is split in two: the ids it
      asks the context for, and what it builds (or the status it fails with)
      once it has them. */
  datatype OpBehaviour = OpBehaviour(
    idRequests: PhysicalOp -> seq<IdRequest>,
    initSchema: (PhysicalOp, seq<nat>) -> Result<PhysicalOp>,
    finishSchema: PhysicalOp -> PhysicalOp,
    withNewChildren: (PhysicalOp, seq<PhysicalOp>) -> Result<PhysicalOp>)

  /** The child list WithNewChild builds: `child` at position `idx`, the
      original producer everywhere else. */
  function Replaced(producers: seq<PhysicalOp>, idx: nat, child: PhysicalOp): (r: seq<PhysicalOp>)
    ensures |r| == |producers|
    ensures idx < |producers| ==> r[idx] == child
    ensures forall k | 0 <= k < |producers| && k != idx :: r[k] == producers[k]
    ensures idx >= |producers| ==> r == producers
  {
    seq(|producers|, k requires 0 <= k < |producers| => if k == idx then child else producers[k])
  }

  /** What WithNewChildren yields: the operator's own rebuild, its InitSchema
      (given the column ids `ids` it received) and FinishSchema, and the input's
      limit count. A failing status of the rebuild or of InitSchema is returned
      unchanged. */
  function Rebuilt(b: OpBehaviour, input: PhysicalOp, children: seq<PhysicalOp>, ids: seq<nat>): (r: Result<PhysicalOp>)
    ensures r.Ok? ==> r.value.limitCnt == input.limitCnt
    ensures b.withNewChildren(input, children).Err? ==> r == Err(b.withNewChildren(input, children).code)
    ensures b.withNewChildren(input, children).Ok? ==>
      var newOp := b.withNewChildren(input, children).value;
      (b.initSchema(newOp, ids).Err? ==> r == Err(b.initSchema(newOp, ids).code)) &&
      (b.initSchema(newOp, ids).Ok? ==>
         r.Ok? && r.value.(limitCnt := 0) == b.finishSchema(b.initSchema(newOp, ids).value).(limitCnt := 0))
  {
    var newOp :- b.withNewChildren(input, children);
    var initialised :- b.initSchema(newOp, ids);
    Ok(b.finishSchema(initialised).(limitCnt := input.limitCnt))
  }

  /** A column of a table: (table name, column name). */
  type ColumnKey = (string, string)

  /** The context's column-id state at one moment: the counter and the four maps. */
  datatype IdMaps = IdMaps(
    counter: nat,
    tableIds: map<ColumnKey, nat>,
    requestIds: map<ColumnKey, nat>,
    idToName: map<nat, ColumnKey>,
    requestToSource: map<nat, nat>)

  /** `after` grows `before`: the counter never goes back, no id a column holds
      changes, and every id newly recorded was handed out after `before`. */
  ghost predicate Extends(before: IdMaps, after: IdMaps) {
    && before.counter <= after.counter
    && (forall k | k in before.tableIds :: k in after.tableIds && after.tableIds[k] == before.tableIds[k])
    && (forall k | k in before.requestIds :: k in after.requestIds && after.requestIds[k] == before.requestIds[k])
    && (forall id | id in after.idToName :: id in before.idToName || before.counter <= id)
    && (forall id | id in after.requestToSource :: id in before.requestToSource || before.counter <= id)
  }

  lemma ExtendsTransitive(a: IdMaps, b: IdMaps, c: IdMaps)
    requires Extends(a, b) && Extends(b, c)
    ensures Extends(a, c)
  {
  }

  /** GetSourceID grows the state: either nothing changes, or the column is
      recorded under the next id. */
  lemma GrowsBySourceLookup(m: IdMaps, after: IdMaps, k: ColumnKey)
    requires after == m || (k !in m.tableIds && after == m.(counter := m.counter + 1,
                                                          tableIds := m.tableIds[k := m.counter],
                                                          idToName := m.idToName[m.counter := k]))
    ensures Extends(m, after)
  {
  }

  /** GetNewColumnID grows the state. */
  lemma GrowsByNewColumn(m: IdMaps)
    ensures Extends(m, m.(counter := m.counter + 1))
  {
  }

  /** Recording a request column under a fresh id grows the state. */
  lemma GrowsByRequestColumn(m: IdMaps, k: ColumnKey, sourceId: nat)
    requires k !in m.requestIds
    ensures Extends(m, m.(counter := m.counter + 1,
                          requestIds := m.requestIds[k := m.counter],
                          requestToSource := m.requestToSource[m.counter := sourceId]))
  {
  }

  /** `id` answers request `q` in state `m`: the id the column holds, or, for a
      computed column, an id handed out since the counter stood at `from` that
      no table column and no request column holds. */
  ghost predicate ServedOne(q: IdRequest, id: nat, from: nat, m: IdMaps) {
    match q
    case SourceColumn(t, c) => (t, c) in m.tableIds && m.tableIds[(t, c)] == id
    case RequestColumn(t, c) => (t, c) in m.requestIds && m.requestIds[(t, c)] == id
    case NewColumn => from <= id < m.counter && id !in m.idToName && id !in m.requestToSource
  }

  /** `ids` answers `reqs` position by position, and the fresh ids are handed
      out in increasing order, so no two computed columns share one. */
  ghost predicate Served(reqs: seq<IdRequest>, ids: seq<nat>, from: nat, m: IdMaps) {
    && |ids| == |reqs|
    && (forall i | 0 <= i < |reqs| :: ServedOne(reqs[i], ids[i], from, m))
    && (forall i, j | 0 <= i < j < |reqs| && reqs[i].NewColumn? && reqs[j].NewColumn? :: ids[i] < ids[j])
  }

  /** An answer stays valid while the state grows. */
  lemma ServedStable(reqs: seq<IdRequest>, ids: seq<nat>, from: nat, m1: IdMaps, m2: IdMaps)
    requires Served(reqs, ids, from, m1) && Extends(m1, m2)
    ensures Served(reqs, ids, from, m2)
  {
    forall i | 0 <= i < |reqs|
      ensures ServedOne(reqs[i], ids[i], from, m2)
    {
      assert ServedOne(reqs[i], ids[i], from, m1);
    }
  }

  class PhysicalPlanContext {
    const db: string
    var columnIdCounter: nat
    /** table_column_id_map_ and request_column_id_map_, keyed by (table, column). */
    var tableColumnIdMap: map<ColumnKey, nat>
    var requestColumnIdMap: map<ColumnKey, nat>
    var requestColumnIdToSourceId: map<nat, nat>
    var columnIdToName: map<nat, ColumnKey>
    /** The operators registered with the node manager, in registration order. */
    var registered: seq<PhysicalOp>

    /** Every id handed out is below the counter; each source id names its
        column; each request id is bridged to the source id of the same column. */
    ghost predicate Valid()
      reads this
    {
      && 1 <= columnIdCounter
      && (forall k | k in tableColumnIdMap ::
            1 <= tableColumnIdMap[k] < columnIdCounter
            && tableColumnIdMap[k] in columnIdToName && columnIdToName[tableColumnIdMap[k]] == k)
      && (forall id | id in columnIdToName :: 1 <= id < columnIdCounter)
      && (forall k | k in requestColumnIdMap ::
            requestColumnIdMap[k] in requestColumnIdToSourceId && k in tableColumnIdMap
            && requestColumnIdToSourceId[requestColumnIdMap[k]] == tableColumnIdMap[k])
      && (forall rid | rid in requestColumnIdToSourceId ::
            1 <= rid < columnIdCounter && rid !in columnIdToName
            && requestColumnIdToSourceId[rid] in columnIdToName)
    }

    /** The column-id state as it stands. */
    function Ids(): IdMaps
      reads this
    {
      IdMaps(columnIdCounter, tableColumnIdMap, requestColumnIdMap, columnIdToName, requestColumnIdToSourceId)
    }

    constructor(db: string)
      ensures Valid()
      ensures this.db == db && columnIdCounter == 1
      ensures tableColumnIdMap == map[] && requestColumnIdMap == map[]
      ensures requestColumnIdToSourceId == map[] && columnIdToName == map[]
      ensures registered == []
    {
      this.db := db;
      columnIdCounter := 1;
      tableColumnIdMap := map[];
      requestColumnIdMap := map[];
      requestColumnIdToSourceId := map[];
      columnIdToName := map[];
      registered := [];
    }

    /** GetRequestColumnIDMapping: every request id maps to a source id. */
    function GetRequestColumnIDMapping(): (m: map<nat, nat>)
      reads this
      requires Valid()
      ensures forall rid | rid in m :: m[rid] in columnIdToName && rid !in columnIdToName
    {
      requestColumnIdToSourceId
    }

    /** GetNewColumnID: the counter's value, which is in use nowhere yet. */
    method GetNewColumnID() returns (id: nat)
      requires Valid()
      modifies this
      ensures Valid()
      ensures id == old(columnIdCounter) && columnIdCounter == id + 1
      ensures 1 <= id && id !in columnIdToName && id !in requestColumnIdToSourceId
      ensures tableColumnIdMap == old(tableColumnIdMap) && requestColumnIdMap == old(requestColumnIdMap)
      ensures requestColumnIdToSourceId == old(requestColumnIdToSourceId)
      ensures columnIdToName == old(columnIdToName) && registered == old(registered)
    {
      id := columnIdCounter;
      columnIdCounter := columnIdCounter + 1;
    }

    /** GetSourceID: the id of a table column, handed out on its first request. */
    method GetSourceID(t: string, c: string) returns (id: nat)
      requires Valid()
      modifies this
      ensures Valid()
      ensures (t, c) in tableColumnIdMap && tableColumnIdMap[(t, c)] == id && columnIdToName[id] == (t, c)
      ensures (t, c) in old(tableColumnIdMap) ==>
        id == old(tableColumnIdMap[(t, c)]) && columnIdCounter == old(columnIdCounter)
        && tableColumnIdMap == old(tableColumnIdMap) && columnIdToName == old(columnIdToName)
      ensures (t, c) !in old(tableColumnIdMap) ==>
        id == old(columnIdCounter) && columnIdCounter == id + 1
        && tableColumnIdMap == old(tableColumnIdMap)[(t, c) := id]
        && columnIdToName == old(columnIdToName)[id := (t, c)]
      ensures requestColumnIdMap == old(requestColumnIdMap)
      ensures requestColumnIdToSourceId == old(requestColumnIdToSourceId) && registered == old(registered)
    {
      if (t, c) in tableColumnIdMap {
        return tableColumnIdMap[(t, c)];
      }
      id := GetNewColumnID();
      tableColumnIdMap := tableColumnIdMap[(t, c) := id];
      columnIdToName := columnIdToName[id := (t, c)];
    }

    /** GetRequestSourceID: the id of a request column, bridged to the source id
        of the same table column. */
    method GetRequestSourceID(t: string, c: string) returns (id: nat)
      requires Valid()
      modifies this
      ensures Valid()
      ensures (t, c) in requestColumnIdMap && requestColumnIdMap[(t, c)] == id
      ensures (t, c) in tableColumnIdMap && id in requestColumnIdToSourceId
      ensures requestColumnIdToSourceId[id] == tableColumnIdMap[(t, c)]
      ensures (t, c) in old(requestColumnIdMap) ==>
        id == old(requestColumnIdMap[(t, c)]) && columnIdCounter == old(columnIdCounter)
        && requestColumnIdMap == old(requestColumnIdMap) && tableColumnIdMap == old(tableColumnIdMap)
      ensures (t, c) !in old(requestColumnIdMap) ==>
        old(columnIdCounter) <= id < columnIdCounter
        && requestColumnIdMap == old(requestColumnIdMap)[(t, c) := id]
      ensures Extends(old(Ids()), Ids())
      ensures registered == old(registered)
    {
      if (t, c) in requestColumnIdMap {
        return requestColumnIdMap[(t, c)];
      }
      ghost var m0 := Ids();
      var sourceId := GetSourceID(t, c);
      ghost var m1 := Ids();
      GrowsBySourceLookup(m0, m1, (t, c));
      id := GetNewColumnID();
      requestColumnIdMap := requestColumnIdMap[(t, c) := id];
      requestColumnIdToSourceId := requestColumnIdToSourceId[id := sourceId];
      GrowsByRequestColumn(m1, (t, c), sourceId);
      ExtendsTransitive(m0, m1, Ids());
    }

    /** Two table columns never share a source id. */
    lemma SourceIdsUnique(k1: ColumnKey, k2: ColumnKey)
      requires Valid() && k1 in tableColumnIdMap && k2 in tableColumnIdMap
      requires tableColumnIdMap[k1] == tableColumnIdMap[k2]
      ensures k1 == k2
    {
      assert columnIdToName[tableColumnIdMap[k1]] == k1;
    }

    /** Two request columns never share a request id, and no request id is a source id. */
    lemma RequestIdsUnique(k1: ColumnKey, k2: ColumnKey)
      requires Valid() && k1 in requestColumnIdMap && k2 in requestColumnIdMap
      requires requestColumnIdMap[k1] == requestColumnIdMap[k2]
      ensures k1 == k2
      ensures forall k | k in tableColumnIdMap :: tableColumnIdMap[k] != requestColumnIdMap[k1]
    {
      SourceIdsUnique(k1, k2);
    }

    /** One id request of an operator's InitSchema, answered by the matching
        context method. */
    method ServeIdRequest(q: IdRequest) returns (id: nat)
      requires Valid()
      modifies this
      ensures Valid()
      ensures ServedOne(q, id, old(columnIdCounter), Ids())
      ensures Extends(old(Ids()), Ids()) && registered == old(registered)
    {
      ghost var m := Ids();
      match q
      case SourceColumn(t, c) =>
        id := GetSourceID(t, c);
        GrowsBySourceLookup(m, Ids(), (t, c));
      case RequestColumn(t, c) =>
        id := GetRequestSourceID(t, c);
      case NewColumn =>
        id := GetNewColumnID();
        GrowsByNewColumn(m);
    }

    /** The ids an operator's InitSchema asks for, answered in order. */
    method ServeIdRequests(reqs: seq<IdRequest>) returns (ids: seq<nat>)
      requires Valid()
      modifies this
      ensures Valid()
      ensures Served(reqs, ids, old(columnIdCounter), Ids())
      ensures Extends(old(Ids()), Ids()) && registered == old(registered)
    {
      ids := [];
      var i := 0;
      while i < |reqs|
        invariant 0 <= i <= |reqs| && Valid()
        invariant Served(reqs[..i], ids, old(columnIdCounter), Ids())
        invariant Extends(old(Ids()), Ids()) && registered == old(registered)
        decreases |reqs| - i
      {
        ghost var before := Ids();
        var id := ServeIdRequest(reqs[i]);
        ServedStable(reqs[..i], ids, old(columnIdCounter), before, Ids());
        ExtendsTransitive(old(Ids()), before, Ids());
        assert reqs[..i + 1] == reqs[..i] + [reqs[i]];
        ids := ids + [id];
        i := i + 1;
      }
      assert reqs[..i] == reqs;
    }

    /** CreateOp: InitSchema (with the ids it asks the context for), then
        FinishSchema, then one registration. A failing InitSchema registers
        nothing and its status is returned; the ids it drew stay drawn. */
    method CreateOp(b: OpBehaviour, op: PhysicalOp) returns (r: Result<PhysicalOp>, ghost ids: seq<nat>)
      requires Valid()
      modifies this
      ensures Valid()
      ensures Served(b.idRequests(op), ids, old(columnIdCounter), Ids()) && Extends(old(Ids()), Ids())
      ensures b.initSchema(op, ids).Err? ==> r == Err(b.initSchema(op, ids).code) && registered == old(registered)
      ensures b.initSchema(op, ids).Ok? ==>
        r == Ok(b.finishSchema(b.initSchema(op, ids).value)) && registered == old(registered) + [r.value]
    {
      var received := ServeIdRequests(b.idRequests(op));
      ids := received;
      var status := b.initSchema(op, received);
      if status.Err? {
        return Err(status.code), ids;
      }
      var finished := b.finishSchema(status.value);
      registered := registered + [finished];
      r := Ok(finished);
    }

    /** WithNewChildren: the operator's own rebuild, then InitSchema and
        FinishSchema, then the input's limit count. A failing rebuild leaves the
        context as it was. */
    method WithNewChildren(b: OpBehaviour, input: PhysicalOp, children: seq<PhysicalOp>)
      returns (r: Result<PhysicalOp>, ghost ids: seq<nat>)
      requires Valid()
      modifies this
      ensures Valid()
      ensures r == Rebuilt(b, input, children, ids)
      ensures b.withNewChildren(input, children).Err? ==> Ids() == old(Ids()) && ids == []
      ensures b.withNewChildren(input, children).Ok? ==>
        Served(b.idRequests(b.withNewChildren(input, children).value), ids, old(columnIdCounter), Ids())
      ensures Extends(old(Ids()), Ids()) && registered == old(registered)
    {
      var rebuilt := b.withNewChildren(input, children);
      if rebuilt.Err? {
        return Err(rebuilt.code), [];
      }
      var newOp := rebuilt.value;
      var received := ServeIdRequests(b.idRequests(newOp));
      ids := received;
      var status := b.initSchema(newOp, received);
      if status.Err? {
        return Err(status.code), ids;
      }
      var finished := b.finishSchema(status.value);
      r := Ok(finished.(limitCnt := input.limitCnt));
    }

    method WithNewChild(b: OpBehaviour, input: PhysicalOp, idx: nat, newChild: PhysicalOp)
      returns (r: Result<PhysicalOp>, ghost ids: seq<nat>)
      requires Valid()
      modifies this
      ensures Valid()
      ensures r == Rebuilt(b, input, Replaced(input.producers, idx, newChild), ids)
      ensures b.withNewChildren(input, Replaced(input.producers, idx, newChild)).Err? ==>
        Ids() == old(Ids()) && ids == []
      ensures b.withNewChildren(input, Replaced(input.producers, idx, newChild)).Ok? ==>
        Served(b.idRequests(b.withNewChildren(input, Replaced(input.producers, idx, newChild)).value),
               ids, old(columnIdCounter), Ids())
      ensures Extends(old(Ids()), Ids()) && registered == old(registered)
    {
      var children: seq<PhysicalOp> := [];
      var i := 0;
      while i < |input.producers|
        invariant 0 <= i <= |input.producers| && |children| == i
        invariant forall k | 0 <= k < i :: children[k] == (if k == idx then newChild else input.producers[k])
        decreases |input.producers| - i
      {
        if i == idx {
          children := children + [newChild];
        } else {
          children := children + [input.producers[i]];
        }
        i := i + 1;
      }
      assert children == Replaced(input.producers, idx, newChild);
      r, ids := WithNewChildren(b, input, children);
    }
  }
}
