/** The registry and its table in the transition system are those of the objects, seen as maps. */
module MonitorRegistry {
  import opened StateMachine
  import opened Storage
  import opened Registry
  import opened Monitor

  function ServiceOf(m: ManagedService, th: Thresholds): Service {
    Service(NameOf(m), CheckUrl(m), m.config.enabled, th)
  }

  function AsMap(d: seq<ManagedService>, th: Thresholds): map<string, Service> {
    if d == [] then map[] else AsMap(d[..|d|-1], th)[NameOf(d[|d|-1]) := ServiceOf(d[|d|-1], th)]
  }

  function AsTable(rows: seq<ServiceRow>): map<string, Record> {
    if rows == [] then map[]
    else AsTable(rows[..|rows|-1])[rows[|rows|-1].name := Record(rows[|rows|-1].url, rows[|rows|-1].enabled)]
  }

  /** The system shows this dictionary and this table; `th` are the thresholds that stored services use. */
  predicate Shows(s: System, config: seq<ManagedService>, telegram: seq<ManagedService>, rows: seq<ServiceRow>,
                  th: Thresholds)
  {
    s.config.Keys == Names(config) && s.telegram == AsMap(telegram, th) && s.table == AsTable(rows)
  }

  // --- the edits as updates of maps ----------------------------------------------------------

  lemma AppendAsMap(d: seq<ManagedService>, m: ManagedService, th: Thresholds)
    ensures AsMap(d + [m], th) == AsMap(d, th)[NameOf(m) := ServiceOf(m, th)]
  {
    assert (d + [m])[..|d|] == d;
  }

  lemma AppendAsTable(rows: seq<ServiceRow>, row: ServiceRow)
    ensures AsTable(rows + [row]) == AsTable(rows)[row.name := Record(row.url, row.enabled)]
  {
    assert (rows + [row])[..|rows|] == rows;
  }

  lemma PutThenRemove<T>(m: map<string, T>, key: string, value: T, name: string)
    ensures m[key := value] - {name} == if key == name then m - {name} else (m - {name})[key := value]
  {
  }

  lemma {:induction false} DropAsMap(d: seq<ManagedService>, name: string, th: Thresholds)
    ensures AsMap(Drop(d, name), th) == AsMap(d, th) - {name}
  {
    if d == [] {
    } else {
      var init, last := d[..|d|-1], d[|d|-1];
      DropAsMap(init, name, th);
      AppendAsMap(Drop(init, name), last, th);
      PutThenRemove(AsMap(init, th), NameOf(last), ServiceOf(last, th), name);
    }
  }

  lemma {:induction false} WithoutAsTable(rows: seq<ServiceRow>, name: string)
    ensures AsTable(Without(rows, name)) == AsTable(rows) - {name}
  {
    if rows == [] {
    } else {
      var init, last := rows[..|rows|-1], rows[|rows|-1];
      WithoutAsTable(init, name);
      AppendAsTable(Without(init, name), last);
      PutThenRemove(AsTable(init), last.name, Record(last.url, last.enabled), name);
    }
  }

  lemma {:induction false} ReplaceAsMap(d: seq<ManagedService>, m: ManagedService, th: Thresholds)
    ensures AsMap(Replace(d, m), th) ==
            if NameOf(m) in AsMap(d, th) then AsMap(d, th)[NameOf(m) := ServiceOf(m, th)] else AsMap(d, th)
  {
    if d == [] {
    } else {
      var init, last := d[..|d|-1], d[|d|-1];
      ReplaceAsMap(init, m, th);
      AppendAsMap(Replace(init, m), if NameOf(last) == NameOf(m) then m else last, th);
    }
  }

  function TableWith(table: map<string, Record>, name: string, enabled: bool): map<string, Record> {
    if name in table then table[name := table[name].(enabled := enabled)] else table
  }

  lemma PutThenEnable(table: map<string, Record>, key: string, record: Record, name: string, enabled: bool)
    ensures TableWith(table[key := record], name, enabled) ==
            TableWith(table, name, enabled)[key := if key == name then record.(enabled := enabled) else record]
  {
  }

  lemma {:induction false} WithEnabledAsTable(rows: seq<ServiceRow>, name: string, enabled: bool)
    ensures AsTable(WithEnabled(rows, name, enabled)) == TableWith(AsTable(rows), name, enabled)
  {
    if rows == [] {
    } else {
      var init, last := rows[..|rows|-1], rows[|rows|-1];
      WithEnabledAsTable(init, name, enabled);
      AppendAsTable(WithEnabled(init, name, enabled), if last.name == name then last.(enabled := enabled) else last);
      PutThenEnable(AsTable(init), last.name, Record(last.url, last.enabled), name, enabled);
    }
  }

  lemma {:induction false} FoundInMap(d: seq<ManagedService>, name: string, th: Thresholds)
    ensures name in AsMap(d, th) <==> Find(d, name).Some?
    ensures name in AsMap(d, th) ==> AsMap(d, th)[name] == ServiceOf(Find(d, name).value, th)
  {
    if d == [] {
    } else {
      FoundInMap(d[..|d|-1], name, th);
    }
  }

  lemma ShadowedIsConfigName(config: seq<ManagedService>, name: string)
    ensures Shadowed(config, name) <==> name in Names(config)
  {
    if name in Names(config) {
      var m :| m in config && NameOf(m) == name;
    }
  }

  lemma {:induction false} MirrorAsMap(rows: seq<ServiceRow>, config: seq<ManagedService>, byName: map<string, Service>,
                                       th: Thresholds)
    requires byName.Keys == Names(config)
    ensures AsMap(Mirror(rows, config), th) == FromTable(AsTable(rows), byName, th)
  {
    if rows == [] {
    } else {
      var init, last := rows[..|rows|-1], rows[|rows|-1];
      MirrorAsMap(init, config, byName, th);
      AppendAsMap(Mirror(init, config), FromRow(last), th);
      ShadowedIsConfigName(config, last.name);
    }
  }

  lemma {:induction false} RowInTable(rows: seq<ServiceRow>, name: string)
    ensures name in AsTable(rows) ==>
              exists row :: row in rows && row.name == name && AsTable(rows)[name] == Record(row.url, row.enabled)
    ensures name !in AsTable(rows) ==> forall row :: row in rows ==> row.name != name
  {
    if rows == [] {
    } else {
      var init, last := rows[..|rows|-1], rows[|rows|-1];
      RowInTable(init, name);
      if name in AsTable(rows) && last.name != name {
        var row :| row in init && row.name == name && AsTable(init)[name] == Record(row.url, row.enabled);
        assert row in rows;
      }
    }
  }

  lemma NameInBoth(a: seq<ServiceRow>, b: seq<ServiceRow>, name: string)
    requires SameRows(a, b) && UniqueNames(a)
    ensures name in AsTable(a) ==> name in AsTable(b) && AsTable(b)[name] == AsTable(a)[name]
  {
    RowInTable(a, name);
    RowInTable(b, name);
    if name in AsTable(a) {
      var row :| row in a && row.name == name && AsTable(a)[name] == Record(row.url, row.enabled);
      assert row in b;
      var other :| other in b && other.name == name && AsTable(b)[name] == Record(other.url, other.enabled);
      assert other in a;
      SameNameSameRow(a, row, other);
    }
  }

  lemma SameNameSameRow(rows: seq<ServiceRow>, x: ServiceRow, y: ServiceRow)
    requires UniqueNames(rows) && x in rows && y in rows && x.name == y.name
    ensures x == y
  {
    var i :| 0 <= i < |rows| && rows[i] == x;
    var j :| 0 <= j < |rows| && rows[j] == y;
    assert !(i < j) && !(j < i);
  }

  /** The order of the rows does not matter to the table. */
  lemma SameRowsSameTable(a: seq<ServiceRow>, b: seq<ServiceRow>)
    requires SameRows(a, b) && UniqueNames(a) && UniqueNames(b)
    ensures AsTable(a) == AsTable(b)
  {
    forall name: string
      ensures name in AsTable(a) ==> name in AsTable(b) && AsTable(b)[name] == AsTable(a)[name]
      ensures name in AsTable(b) ==> name in AsTable(a)
    {
      NameInBoth(a, b, name);
      NameInBoth(b, a, name);
    }
  }

  // --- the actions ---------------------------------------------------------------------------

  /** A name is free for the object exactly if it is for the system. */
  lemma TakenIsRegistered(s: System, config: seq<ManagedService>, telegram: seq<ManagedService>,
                          rows: seq<ServiceRow>, th: Thresholds, name: string)
    requires Shows(s, config, telegram, rows, th)
    ensures Find(config, name).Some? <==> name in s.config
    ensures Find(telegram, name).Some? <==> name in s.telegram
  {
    ShadowedIsConfigName(config, name);
    FoundInMap(telegram, name, th);
  }

  /** What `Add` does to dictionary and table is the action `Add`, possible for the same names. */
  lemma AddShows(s: System, config: seq<ManagedService>, telegram: seq<ManagedService>, rows: seq<ServiceRow>,
                 th: Thresholds, row: ServiceRow)
    requires Shows(s, config, telegram, rows, th)
    ensures Enabled(s, Add(ServiceOf(FromRow(row), th))) <==> !Taken(config, telegram, row.name)
    ensures Shows(Added(s, ServiceOf(FromRow(row), th)), config, telegram + [FromRow(row)], rows + [row], th)
  {
    TakenIsRegistered(s, config, telegram, rows, th, row.name);
    AppendAsMap(telegram, FromRow(row), th);
    AppendAsTable(rows, row);
  }

  /** What `Remove` does to them is the last step of a removal, which is refused in the same cases. */
  lemma RemoveShows(s: System, config: seq<ManagedService>, telegram: seq<ManagedService>, rows: seq<ServiceRow>,
                    th: Thresholds, t: nat)
    requires Shows(s, config, telegram, rows, th) && t < |s.tasks|
    ensures var name := s.tasks[t].service.name;
            Shows(Removed(s, t), config, Drop(telegram, name), Without(rows, name), th)
    ensures var name := s.tasks[t].service.name;
            s.tasks[t].pc == RemovalQueued ==>
              (AcquiredPc(s, t) == Removing <==> Find(config, name).None? && Find(telegram, name).Some?)
  {
    TakenIsRegistered(s, config, telegram, rows, th, s.tasks[t].service.name);
    DropAsMap(telegram, s.tasks[t].service.name, th);
    WithoutAsTable(rows, s.tasks[t].service.name);
  }

  /** What `SetEnabled` does to them is the action `SetEnabled`. */
  lemma SetEnabledShows(s: System, config: seq<ManagedService>, telegram: seq<ManagedService>, rows: seq<ServiceRow>,
                        th: Thresholds, name: string, enabled: bool)
    requires Shows(s, config, telegram, rows, th) && Find(telegram, name).Some? && name in s.table
    ensures Enabled(s, SetEnabled(name, enabled))
    ensures var m := Find(telegram, name).value;
            Shows(Next(s, SetEnabled(name, enabled)), config,
                  Replace(telegram, m.(config := m.config.(enabled := enabled))), WithEnabled(rows, name, enabled), th)
  {
    var m := Find(telegram, name).value;
    FoundInMap(telegram, name, th);
    ReplaceAsMap(telegram, m.(config := m.config.(enabled := enabled)), th);
    WithEnabledAsTable(rows, name, enabled);
  }

  /** What `Load` reads from the table is what a restarted system knows. */
  lemma LoadShows(s: System, config: seq<ManagedService>, telegram: seq<ManagedService>, rows: seq<ServiceRow>,
                  th: Thresholds, byName: map<string, Service>, capacity: nat)
    requires Shows(s, config, telegram, rows, th) && UniqueNames(rows) && byName.Keys == Names(config)
    ensures Shows(Reborn(s, byName, th, capacity), config, Mirror(Sorted(rows), config), rows, th)
  {
    SortedNames(rows);
    forall row ensures row in Sorted(rows) <==> row in rows {
      SortedKeepsMembers(rows, row);
    }
    SameRowsSameTable(Sorted(rows), rows);
    MirrorAsMap(Sorted(rows), config, byName, th);
  }
}
