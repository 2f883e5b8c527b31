/**
 * The name/id registry: two process-wide maps built once from the variant
 * table by inserting every model in table order with `emplace` (so, for a
 * key seen twice, the first insertion stays), and the two lookups over them
 * that answer a sentinel on a miss.
 */
module Registry {
  import opened VariantTable

  /** The name-to-id map after emplacing the models of `table` in order. */
  function NameToIdMap(table: seq<Variant>): (m: map<string, int>)
    decreases |table|
  {
    if table == [] then map[]
    else
      var m := NameToIdMap(table[..|table| - 1]);
      var v := table[|table| - 1];
      if v.name in m then m else m[v.name := v.id]
  }

  /** The id-to-name map after emplacing the models of `table` in order. */
  function IdToNameMap(table: seq<Variant>): (m: map<int, string>)
    decreases |table|
  {
    if table == [] then map[]
    else
      var m := IdToNameMap(table[..|table| - 1]);
      var v := table[|table| - 1];
      if v.id in m then m else m[v.id := v.name]
  }

  /** The name-to-id map holds exactly the names of the table, each bound to
      the id of the first model carrying that name. */
  lemma {:induction false} NameToIdMapFirstWins(table: seq<Variant>, name: string)
    ensures name in NameToIdMap(table) <==> exists i :: 0 <= i < |table| && table[i].name == name
    ensures name in NameToIdMap(table) ==>
      exists i :: 0 <= i < |table| && table[i].name == name && NameToIdMap(table)[name] == table[i].id
        && forall j :: 0 <= j < i ==> table[j].name != name
    decreases |table|
  {
    if table != [] {
      var p := table[..|table| - 1];
      NameToIdMapFirstWins(p, name);
      assert forall i :: 0 <= i < |p| ==> p[i] == table[i];
      if name in NameToIdMap(p) {
        var i :| 0 <= i < |p| && p[i].name == name && NameToIdMap(p)[name] == p[i].id
          && forall j :: 0 <= j < i ==> p[j].name != name;
        assert table[i].name == name && NameToIdMap(table)[name] == table[i].id;
      } else if table[|table| - 1].name == name {
        assert forall j :: 0 <= j < |table| - 1 ==> table[j].name != name;
      } else {
        assert forall i :: 0 <= i < |table| ==> table[i].name != name;
      }
    }
  }

  /** The id-to-name map holds exactly the ids of the table, each bound to
      the name of the first model carrying that id. */
  lemma {:induction false} IdToNameMapFirstWins(table: seq<Variant>, id: int)
    ensures id in IdToNameMap(table) <==> exists i :: 0 <= i < |table| && table[i].id == id
    ensures id in IdToNameMap(table) ==>
      exists i :: 0 <= i < |table| && table[i].id == id && IdToNameMap(table)[id] == table[i].name
        && forall j :: 0 <= j < i ==> table[j].id != id
    decreases |table|
  {
    if table != [] {
      var p := table[..|table| - 1];
      IdToNameMapFirstWins(p, id);
      assert forall i :: 0 <= i < |p| ==> p[i] == table[i];
      if id in IdToNameMap(p) {
        var i :| 0 <= i < |p| && p[i].id == id && IdToNameMap(p)[id] == p[i].name
          && forall j :: 0 <= j < i ==> p[j].id != id;
        assert table[i].id == id && IdToNameMap(table)[id] == table[i].name;
      } else if table[|table| - 1].id == id {
        assert forall j :: 0 <= j < |table| - 1 ==> table[j].id != id;
      } else {
        assert forall i :: 0 <= i < |table| ==> table[i].id != id;
      }
    }
  }

  /** Builds the name-to-id map by emplacing every model in table order. */
  method InitializeNameToIdMap(table: seq<Variant>) returns (m: map<string, int>)
    ensures m == NameToIdMap(table)
  {
    m := map[];
    var i := 0;
    while i < |table|
      invariant 0 <= i <= |table|
      invariant m == NameToIdMap(table[..i])
    {
      assert table[..i + 1][..i] == table[..i];
      var v := table[i];
      if v.name !in m {
        m := m[v.name := v.id];
      }
      i := i + 1;
    }
    assert table[..|table|] == table;
  }

  /** Builds the id-to-name map by emplacing every model in table order. */
  method InitializeIdToNameMap(table: seq<Variant>) returns (m: map<int, string>)
    ensures m == IdToNameMap(table)
  {
    m := map[];
    var i := 0;
    while i < |table|
      invariant 0 <= i <= |table|
      invariant m == IdToNameMap(table[..i])
    {
      assert table[..i + 1][..i] == table[..i];
      var v := table[i];
      if v.id !in m {
        m := m[v.id := v.name];
      }
      i := i + 1;
    }
    assert table[..|table|] == table;
  }

  /** The id of the model called exactly `name`, or the invalid id. */
  function NameToId(table: seq<Variant>, name: string): (r: int)
    requires UniqueNames(table)
    ensures forall i :: 0 <= i < |table| && table[i].name == name ==> r == table[i].id
    ensures (forall i :: 0 <= i < |table| ==> table[i].name != name) ==> r == InvalidCameraModelId
  {
    NameToIdMapFirstWins(table, name);
    var m := NameToIdMap(table);
    if name in m then m[name] else InvalidCameraModelId
  }

  /** The name of the model with id `id`, or the invalid name. */
  function IdToName(table: seq<Variant>, id: int): (r: string)
    requires UniqueIds(table)
    ensures forall i :: 0 <= i < |table| && table[i].id == id ==> r == table[i].name
    ensures (forall i :: 0 <= i < |table| ==> table[i].id != id) ==> r == InvalidCameraModelName
  {
    IdToNameMapFirstWins(table, id);
    var m := IdToNameMap(table);
    if id in m then m[id] else InvalidCameraModelName
  }

  /** Resolving an id to a name and back gives the id again for a registered
      model, and the invalid id for any other id. */
  lemma IdNameIdRoundTrip(table: seq<Variant>, id: int)
    requires WellFormed(table)
    ensures NameToId(table, IdToName(table, id)) == if IsRegistered(table, id) then id else InvalidCameraModelId
  {
  }

  /** Resolving a name to an id and back gives the name again for a
      registered model, and the invalid name for any other string. */
  lemma NameIdNameRoundTrip(table: seq<Variant>, name: string)
    requires WellFormed(table)
    ensures IdToName(table, NameToId(table, name)) ==
      if exists v :: v in table && v.name == name then name else InvalidCameraModelName
  {
  }
}
