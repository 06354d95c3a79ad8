/** Complex mode of a worker: a row carries whole conditions, which replace
    those of the experiment for one simulation and are put back afterwards. */
module CvleBackup {
  import opened Common

  const CVLE_COND := "_cvle_cond"
  const ENGINE := "simulation_engine"
  const HAS_ENGINE := "has_simulation_engine"

  /** Conditions by name, ports by name. Ports of a row may hold no value. */
  type Conds<V> = map<string, map<string, V>>
  type RowConds<V> = map<string, map<string, Option<V>>>

  /** Whether the row announces that it changes the simulation engine. */
  predicate ChangesEngine<V>(isTrue: V -> bool, other: RowConds<V>)
  {
    && CVLE_COND in other
    && HAS_ENGINE in other[CVLE_COND]
    && other[CVLE_COND][HAS_ENGINE].Some?
    && isTrue(other[CVLE_COND][HAS_ENGINE].value)
  }

  predicate Selected(name: string, engine: bool)
  {
    name != CVLE_COND && (name != ENGINE || engine)
  }

  predicate NoNull<V>(ports: map<string, Option<V>>)
  {
    forall p :: p in ports ==> ports[p].Some?
  }

  function Ports<V>(ports: map<string, Option<V>>): (r: map<string, V>)
    requires NoNull(ports)
    ensures r.Keys == ports.Keys
  {
    map p | p in ports :: ports[p].value
  }

  /** ConditionsBackup::modify: None when it throws, which it does for an unknown
      condition and for a port without value. */
  function Modify<V>(isTrue: V -> bool, backup: Conds<V>, cur: Conds<V>, other: RowConds<V>): (r: Option<Conds<V>>)
  {
    var engine := ChangesEngine(isTrue, other);
    if forall name :: name in other && Selected(name, engine) ==>
         name in backup && name in cur && NoNull(other[name]) then
      Some(map name | name in cur ::
             if name in other && Selected(name, engine) then cur[name] + Ports(other[name]) else cur[name])
    else None
  }

  /** Conditions::del refuses to delete the simulation engine. */
  function Del<V>(cur: Conds<V>, name: string): (r: Conds<V>)
  {
    if name == ENGINE then cur else cur - {name}
  }

  /** Conditions::add deletes first and then inserts; an insertion does not
      replace what is already there. */
  function Add<V>(cur: Conds<V>, name: string, ports: map<string, V>): (r: Conds<V>)
    ensures name in r
  {
    var c := Del(cur, name);
    if name in c then c else c[name := ports]
  }

  /** ConditionsBackup::restoreBackup, one condition of the row at a time. */
  method Restore<V>(backup: Conds<V>, cur: Conds<V>, names: seq<string>) returns (r: Option<Conds<V>>)
    ensures r == Restored(backup, cur, names)
  {
    var c := cur;
    for i := 0 to |names|
      invariant Restored(backup, cur, names) == Restored(backup, c, names[i..])
    {
      assert names[i..][1..] == names[i+1..];
      if names[i] != CVLE_COND {
        if names[i] !in backup {
          return None;
        }
        c := Del(c, names[i]);
        c := Add(c, names[i], backup[names[i]]);
      }
    }
    r := Some(c);
  }

  function Restored<V>(backup: Conds<V>, cur: Conds<V>, names: seq<string>): (r: Option<Conds<V>>)
    decreases |names|
  {
    if names == [] then Some(cur)
    else if names[0] == CVLE_COND then Restored(backup, cur, names[1..])
    else if names[0] !in backup then None
    else Restored(backup, Add(Del(cur, names[0]), names[0], backup[names[0]]), names[1..])
  }

  /** Restoring undoes changes confined to the listed conditions, except those
      to the simulation engine. */
  lemma {:induction false} RestoredIs<V>(backup: Conds<V>, cur: Conds<V>, names: seq<string>)
    requires cur.Keys == backup.Keys
    requires forall name :: name in cur && name !in names && name != ENGINE ==> cur[name] == backup[name]
    requires CVLE_COND in names && CVLE_COND in cur ==> cur[CVLE_COND] == backup[CVLE_COND]
    requires Restored(backup, cur, names).Some?
    ensures Restored(backup, cur, names).value ==
            if ENGINE in backup then backup[ENGINE := cur[ENGINE]] else backup
    decreases |names|
  {
    var goal := if ENGINE in backup then backup[ENGINE := cur[ENGINE]] else backup;
    if names == [] {
      assert cur == goal;
    } else if names[0] == CVLE_COND {
      RestoredIs(backup, cur, names[1..]);
    } else {
      var c := Add(Del(cur, names[0]), names[0], backup[names[0]]);
      assert c.Keys == cur.Keys;
      RestoredIs(backup, c, names[1..]);
    }
  }

  /** The row leaves the simulation engine as it found it. */
  predicate KeepsEngine<V(==)>(isTrue: V -> bool, backup: Conds<V>, other: RowConds<V>)
  {
    ChangesEngine(isTrue, other) && ENGINE in other && ENGINE in backup && NoNull(other[ENGINE]) ==>
      forall p :: p in other[ENGINE] ==> p in backup[ENGINE] && backup[ENGINE][p] == other[ENGINE][p].value
  }

  ghost predicate Lists(names: seq<string>, keys: set<string>)
  {
    forall name :: name in names <==> name in keys
  }

  /** Modifying and restoring returns to the backup if and only if the row keeps
      the simulation engine; otherwise the engine's new ports stay for every
      later row. Holds whenever both calls succeed, in any order of the names. */
  lemma ModifyRestore<V>(isTrue: V -> bool, backup: Conds<V>, other: RowConds<V>, names: seq<string>)
    requires Lists(names, other.Keys)
    requires Modify(isTrue, backup, backup, other).Some?
    requires Restored(backup, Modify(isTrue, backup, backup, other).value, names).Some?
    ensures var r := Restored(backup, Modify(isTrue, backup, backup, other).value, names).value;
            (r == backup <==> KeepsEngine(isTrue, backup, other)) &&
            (!KeepsEngine(isTrue, backup, other) ==> r == backup[ENGINE := backup[ENGINE] + Ports(other[ENGINE])])
  {
    var cur := Modify(isTrue, backup, backup, other).value;
    assert cur.Keys == backup.Keys;
    RestoredIs(backup, cur, names);
    if ENGINE in backup {
      assert backup[ENGINE := cur[ENGINE]] == backup <==> cur[ENGINE] == backup[ENGINE];
      if ChangesEngine(isTrue, other) && ENGINE in other {
        assert Selected(ENGINE, true);
        assert cur[ENGINE] == backup[ENGINE] + Ports(other[ENGINE]);
        SamePorts(backup[ENGINE], other[ENGINE]);
      }
    }
  }

  /** The conditions a row is simulated with: every condition the row names,
      except its own description and, unless announced, the simulation engine,
      has the row's value in each of the row's ports and keeps its other ports;
      every other condition is as it was. */
  ghost predicate Between<V(!new)>(isTrue: V -> bool, cur: Conds<V>, other: RowConds<V>, r: Conds<V>)
  {
    && r.Keys == cur.Keys
    && forall name :: name in cur ==>
         if name in other && name != CVLE_COND && (name == ENGINE ==> ChangesEngine(isTrue, other)) then
           && (forall p :: p in r[name] <==> p in cur[name] || p in other[name])
           && (forall p :: p in other[name] ==> other[name][p] == Some(r[name][p]))
           && (forall p :: p in cur[name] && p !in other[name] ==> r[name][p] == cur[name][p])
         else r[name] == cur[name]
  }

  /** A row that can be applied names known conditions and gives every port a
      value. */
  ghost predicate Known<V(!new)>(isTrue: V -> bool, backup: Conds<V>, cur: Conds<V>, other: RowConds<V>)
  {
    forall name :: name in other && name != CVLE_COND && (name == ENGINE ==> ChangesEngine(isTrue, other)) ==>
      name in backup && name in cur && forall p :: p in other[name] ==> other[name][p] != None
  }

  lemma KnownExact<V(!new)>(isTrue: V -> bool, backup: Conds<V>, cur: Conds<V>, other: RowConds<V>)
    ensures Modify(isTrue, backup, cur, other).Some? <==> Known(isTrue, backup, cur, other)
  {
    var engine := ChangesEngine(isTrue, other);
    forall name | name in other
      ensures NoNull(other[name]) <==> forall p :: p in other[name] ==> other[name][p] != None
    {
    }
    if Known(isTrue, backup, cur, other) {
      forall name | name in other && Selected(name, engine)
        ensures name in backup && name in cur && NoNull(other[name])
      {
      }
    }
  }

  /** What modify leaves in force, and exactly when it does not throw. */
  lemma ModifyWrites<V(!new)>(isTrue: V -> bool, backup: Conds<V>, cur: Conds<V>, other: RowConds<V>)
    ensures Modify(isTrue, backup, cur, other).Some? <==> Known(isTrue, backup, cur, other)
    ensures Modify(isTrue, backup, cur, other).Some? ==>
              Between(isTrue, cur, other, Modify(isTrue, backup, cur, other).value)
  {
    KnownExact(isTrue, backup, cur, other);
  }

  /** Writing ports over others changes nothing iff each is there already. */
  lemma SamePorts<V>(ports: map<string, V>, row: map<string, Option<V>>)
    requires NoNull(row)
    ensures ports + Ports(row) == ports <==> forall p :: p in row ==> p in ports && ports[p] == row[p].value
  {
    var after := ports + Ports(row);
    if after == ports {
      forall p | p in row ensures p in ports && ports[p] == row[p].value {
        assert after[p] == row[p].value;
      }
    }
  }

  /** A row that shortens the simulation leaves it short for the rows behind. */
  lemma EngineLeaks()
    ensures var backup: Conds<int> := map[ENGINE := map["duration" := 100]];
            var other: RowConds<int> := map[CVLE_COND := map[HAS_ENGINE := Some(1)],
                                                ENGINE := map["duration" := Some(5)]];
            var names := [CVLE_COND, ENGINE];
            var isTrue := (v: int) => v == 1;
            && Modify(isTrue, backup, backup, other).Some?
            && Restored(backup, Modify(isTrue, backup, backup, other).value, names) ==
                 Some(map[ENGINE := map["duration" := 5]])
  {
    var backup: Conds<int> := map[ENGINE := map["duration" := 100]];
    var other: RowConds<int> := map[CVLE_COND := map[HAS_ENGINE := Some(1)], ENGINE := map["duration" := Some(5)]];
    var names := [CVLE_COND, ENGINE];
    var isTrue := (v: int) => v == 1;
    var cur: Conds<int> := map[ENGINE := map["duration" := 5]];
    assert ChangesEngine(isTrue, other);
    assert backup[ENGINE] + Ports(other[ENGINE]) == map["duration" := 5];
    assert Modify(isTrue, backup, backup, other).value == cur;
    assert names[1..] == [ENGINE] && [ENGINE][1..] == [];
    assert Add(Del(cur, ENGINE), ENGINE, backup[ENGINE]) == cur;
    assert Restored(backup, cur, [ENGINE]) == Restored(backup, cur, []);
    assert Restored(backup, cur, names) == Restored(backup, cur, [ENGINE]);
  }
}
