/** The two tables behind the monitor, each store method as one atomic update. */
module Storage {
  import opened Models
  import opened StateMachine
  import opened AlertProtocol

  /** One row of the table of services added from Telegram. */
  datatype ServiceRow = ServiceRow(name: string, url: string, enabled: bool, createdAt: Time)

  // --- ORDER BY created_at, name -------------------------------------------------------------

  predicate TextBefore(a: string, b: string) {
    a != b && (a == [] || (b != [] && (a[0] < b[0] || (a[0] == b[0] && TextBefore(a[1..], b[1..])))))
  }

  /** Lexicographic: one text is a proper beginning of the other, or they first differ in a smaller character. */
  ghost predicate DiffersBelow(a: string, b: string) {
    exists k: nat :: k <= |a| && k < |b| && a[..k] == b[..k] && (k == |a| || a[k] < b[k])
  }

  lemma DiffersBehind(c: char, a: string, b: string)
    ensures DiffersBelow([c] + a, [c] + b) <==> DiffersBelow(a, b)
  {
    var s, t := [c] + a, [c] + b;
    if k: nat :| k <= |a| && k < |b| && a[..k] == b[..k] && (k == |a| || a[k] < b[k]) {
      assert s[..k + 1] == [c] + a[..k] && t[..k + 1] == [c] + b[..k];
    }
    if k: nat :| k <= |s| && k < |t| && s[..k] == t[..k] && (k == |s| || s[k] < t[k]) {
      assert a[..k - 1] == s[..k][1..] && b[..k - 1] == t[..k][1..];
    }
  }

  lemma DiffersAtOnce(a: string, b: string)
    requires b != [] && (a == [] || a[0] != b[0])
    ensures DiffersBelow(a, b) <==> a == [] || a[0] < b[0]
  {
    if a == [] || a[0] < b[0] {
      assert a[..0] == b[..0];
    } else {
      assert forall k: nat :: 0 < k <= |a| && k < |b| ==> a[..k][0] != b[..k][0];
    }
  }

  lemma {:induction false} TextBeforeIsLexicographic(a: string, b: string)
    ensures TextBefore(a, b) <==> DiffersBelow(a, b)
  {
    if b == [] {
    } else if a == [] || a[0] != b[0] {
      DiffersAtOnce(a, b);
    } else {
      TextBeforeIsLexicographic(a[1..], b[1..]);
      DiffersBehind(a[0], a[1..], b[1..]);
      assert a == [a[0]] + a[1..] && b == [a[0]] + b[1..];
    }
  }

  predicate RowBefore(a: ServiceRow, b: ServiceRow) {
    a.createdAt < b.createdAt || (a.createdAt == b.createdAt && TextBefore(a.name, b.name))
  }

  function Insert(row: ServiceRow, rows: seq<ServiceRow>): seq<ServiceRow> {
    if rows == [] || !RowBefore(row, rows[|rows|-1]) then rows + [row]
    else Insert(row, rows[..|rows|-1]) + [rows[|rows|-1]]
  }

  function Sorted(rows: seq<ServiceRow>): seq<ServiceRow> {
    if rows == [] then [] else Insert(rows[|rows|-1], Sorted(rows[..|rows|-1]))
  }

  lemma {:induction false} InsertIsPermutation(row: ServiceRow, rows: seq<ServiceRow>)
    ensures multiset(Insert(row, rows)) == multiset(rows) + multiset{row}
  {
    if rows == [] || !RowBefore(row, rows[|rows|-1]) {
    } else {
      InsertIsPermutation(row, rows[..|rows|-1]);
      assert rows == rows[..|rows|-1] + [rows[|rows|-1]];
    }
  }

  lemma {:induction false} SortedIsPermutation(rows: seq<ServiceRow>)
    ensures multiset(Sorted(rows)) == multiset(rows)
  {
    if rows == [] {
    } else {
      var init, last := rows[..|rows|-1], rows[|rows|-1];
      SortedIsPermutation(init);
      InsertIsPermutation(last, Sorted(init));
      MultisetAppend(init, last);
      assert rows == init + [last];
    }
  }

  lemma MultisetAppend(rows: seq<ServiceRow>, row: ServiceRow)
    ensures multiset(rows + [row]) == multiset(rows) + multiset{row}
  {
  }

  lemma SortedKeepsMembers(rows: seq<ServiceRow>, row: ServiceRow)
    ensures row in Sorted(rows) <==> row in rows
  {
    SortedIsPermutation(rows);
    assert row in Sorted(rows) <==> row in multiset(Sorted(rows));
    assert row in rows <==> row in multiset(rows);
  }

  lemma {:induction false} TextOrder(a: string, b: string, c: string)
    ensures !TextBefore(a, b) && !TextBefore(b, c) ==> !TextBefore(a, c)
    ensures TextBefore(a, b) ==> !TextBefore(b, a)
  {
    if a != [] && b != [] && c != [] {
      TextOrder(a[1..], b[1..], c[1..]);
      assert a == [a[0]] + a[1..] && b == [b[0]] + b[1..] && c == [c[0]] + c[1..];
    } else if a != [] && b != [] {
      TextOrder(a[1..], b[1..], []);
    }
  }

  predicate InOrder(rows: seq<ServiceRow>) {
    forall i, j :: 0 <= i < j < |rows| ==> !RowBefore(rows[j], rows[i])
  }

  lemma {:induction false} InsertKeepsOrder(row: ServiceRow, rows: seq<ServiceRow>)
    requires InOrder(rows)
    ensures InOrder(Insert(row, rows))
  {
    if rows == [] {
    } else {
      var init, last := rows[..|rows|-1], rows[|rows|-1];
      if RowBefore(row, last) {
        InsertKeepsOrder(row, init);
        forall i | 0 <= i < |Insert(row, init)| ensures !RowBefore(last, Insert(row, init)[i]) {
          InsertIsPermutation(row, init);
          assert Insert(row, init)[i] in multiset(Insert(row, init));
          TextOrder(row.name, last.name, row.name);
        }
      } else {
        forall i | 0 <= i < |rows| ensures !RowBefore(row, rows[i]) {
          TextOrder(row.name, last.name, rows[i].name);
        }
      }
    }
  }

  lemma {:induction false} SortedIsInOrder(rows: seq<ServiceRow>)
    ensures InOrder(Sorted(rows))
  {
    if rows == [] {
    } else {
      SortedIsInOrder(rows[..|rows|-1]);
      InsertKeepsOrder(rows[|rows|-1], Sorted(rows[..|rows|-1]));
    }
  }

  predicate CreatedInOrder(rows: seq<ServiceRow>) {
    forall i, j :: 0 <= i < j < |rows| ==> rows[i].createdAt < rows[j].createdAt
  }

  lemma {:induction false} SortedLeavesOrderAlone(rows: seq<ServiceRow>)
    requires CreatedInOrder(rows)
    ensures Sorted(rows) == rows
  {
    if rows == [] {
    } else {
      SortedLeavesOrderAlone(rows[..|rows|-1]);
      assert rows == rows[..|rows|-1] + [rows[|rows|-1]];
    }
  }

  lemma InsertKeepsMembers(row: ServiceRow, rows: seq<ServiceRow>, x: ServiceRow)
    ensures x in Insert(row, rows) <==> x in rows || x == row
  {
    InsertIsPermutation(row, rows);
    assert x in Insert(row, rows) <==> x in multiset(Insert(row, rows));
    assert x in rows <==> x in multiset(rows);
  }

  lemma {:induction false} InsertKeepsNames(row: ServiceRow, rows: seq<ServiceRow>)
    requires UniqueNames(rows) && forall x :: x in rows ==> x.name != row.name
    ensures UniqueNames(Insert(row, rows))
  {
    if rows == [] || !RowBefore(row, rows[|rows|-1]) {
    } else {
      var init, last := rows[..|rows|-1], rows[|rows|-1];
      InsertKeepsNames(row, init);
      var front := Insert(row, init);
      forall i | 0 <= i < |front| ensures front[i].name != last.name {
        InsertKeepsMembers(row, init, front[i]);
      }
    }
  }

  lemma AppendMembers(rows: seq<ServiceRow>, row: ServiceRow)
    requires UniqueNames(rows) && !HasName(rows, row.name)
    ensures UniqueNames(rows + [row])
    ensures forall name :: HasName(rows + [row], name) <==> HasName(rows, name) || name == row.name
  {
    var all := rows + [row];
    assert forall i :: 0 <= i < |rows| ==> all[i] == rows[i];
    assert all[|rows|] == row;
    forall name | HasName(rows, name) ensures HasName(all, name) {
      var i :| 0 <= i < |rows| && rows[i].name == name;
      assert all[i].name == name;
    }
  }

  lemma {:induction false} SortedNames(rows: seq<ServiceRow>)
    requires UniqueNames(rows)
    ensures UniqueNames(Sorted(rows))
  {
    if rows == [] {
    } else {
      var init, last := rows[..|rows|-1], rows[|rows|-1];
      SortedNames(init);
      forall x | x in Sorted(init) ensures x.name != last.name {
        SortedKeepsMembers(init, x);
      }
      InsertKeepsNames(last, Sorted(init));
    }
  }

  lemma {:induction false} WithoutMembers(rows: seq<ServiceRow>, name: string)
    requires UniqueNames(rows)
    ensures UniqueNames(Without(rows, name)) && !HasName(Without(rows, name), name)
    ensures forall row :: row in Without(rows, name) <==> row in rows && row.name != name
  {
    if rows == [] {
    } else {
      var init, last := rows[..|rows|-1], rows[|rows|-1];
      assert forall i :: 0 <= i < |init| ==> init[i] == rows[i];
      WithoutMembers(init, name);
      assert rows == init + [last];
      if last.name != name {
        forall i | 0 <= i < |Without(init, name)| ensures Without(init, name)[i].name != last.name {
          assert Without(init, name)[i] in init;
        }
        AppendMembers(Without(init, name), last);
      }
    }
  }

  lemma {:induction false} WithoutKeepsOrder(a: seq<ServiceRow>, b: seq<ServiceRow>, name: string)
    ensures Without(a + b, name) == Without(a, name) + Without(b, name)
  {
    if b == [] {
      assert a + b == a;
    } else {
      var init, last := b[..|b|-1], b[|b|-1];
      WithoutKeepsOrder(a, init, name);
      assert a + b == (a + init) + [last];
      assert (a + b)[..|a + b|-1] == a + init;
    }
  }

  lemma {:induction false} WithEnabledAt(rows: seq<ServiceRow>, name: string, enabled: bool)
    ensures |WithEnabled(rows, name, enabled)| == |rows|
    ensures forall i :: 0 <= i < |rows| ==>
              WithEnabled(rows, name, enabled)[i] ==
              if rows[i].name == name then rows[i].(enabled := enabled) else rows[i]
  {
    if rows == [] {
    } else {
      WithEnabledAt(rows[..|rows|-1], name, enabled);
    }
  }

  // --- the tables ----------------------------------------------------------------------------

  predicate HasName(rows: seq<ServiceRow>, name: string) {
    exists i :: 0 <= i < |rows| && rows[i].name == name
  }

  predicate UniqueNames(rows: seq<ServiceRow>) {
    forall i, j :: 0 <= i < j < |rows| ==> rows[i].name != rows[j].name
  }

  function Without(rows: seq<ServiceRow>, name: string): seq<ServiceRow> {
    if rows == [] then []
    else if rows[|rows|-1].name == name then Without(rows[..|rows|-1], name)
    else Without(rows[..|rows|-1], name) + [rows[|rows|-1]]
  }

  function WithEnabled(rows: seq<ServiceRow>, name: string, enabled: bool): seq<ServiceRow> {
    if rows == [] then []
    else WithEnabled(rows[..|rows|-1], name, enabled) +
         [if rows[|rows|-1].name == name then rows[|rows|-1].(enabled := enabled) else rows[|rows|-1]]
  }

  function RowOf(rows: map<string, State>, name: string): Option<State> {
    if name in rows then Some(rows[name]) else None
  }

  class StateStore {
    var rows: map<string, State>
    var managed: seq<ServiceRow>

    constructor ()
      ensures rows == map[] && managed == []
    {
      rows, managed := map[], [];
    }

    /** The stored state, or a fresh one if the name is unknown or was checked at another URL. */
    method Load(name: string, url: string) returns (state: ServiceState)
      ensures fresh(state) && state.View() == Stored(RowOf(rows, name), name, url)
      ensures name in rows && rows[name].url == url ==> state.View() == rows[name]
      ensures name !in rows || rows[name].url != url ==> state.View() == Fresh(name, url)
    {
      if name !in rows || rows[name].url != url {
        state := new ServiceState(Fresh(name, url));
      } else {
        state := new ServiceState(rows[name]);
      }
    }

    method Save(state: ServiceState)
      modifies this`rows
      ensures rows == old(rows)[state.name := state.View()]
    {
      rows := rows[state.name := state.View()];
    }

    method ListServices() returns (records: seq<ServiceRow>)
      ensures records == Sorted(managed) && multiset(records) == multiset(managed)
      ensures forall i, j :: 0 <= i < j < |records| ==>
                records[i].createdAt < records[j].createdAt ||
                (records[i].createdAt == records[j].createdAt && !DiffersBelow(records[j].name, records[i].name))
    {
      records := Sorted(managed);
      SortedIsPermutation(managed);
      SortedIsInOrder(managed);
      forall i, j | 0 <= i < j < |records|
        ensures records[i].createdAt < records[j].createdAt ||
                (records[i].createdAt == records[j].createdAt && !DiffersBelow(records[j].name, records[i].name))
      {
        TextBeforeIsLexicographic(records[j].name, records[i].name);
        assert !RowBefore(records[j], records[i]);
      }
    }

    /** An INSERT: it fails on an existing primary key. */
    method AddService(name: string, url: string, now: Time) returns (inserted: bool)
      modifies this`managed
      ensures inserted <==> !HasName(old(managed), name)
      ensures managed == if inserted then old(managed) + [ServiceRow(name, url, true, now)] else old(managed)
    {
      inserted := !HasName(managed, name);
      if inserted {
        managed := managed + [ServiceRow(name, url, true, now)];
      }
    }

    method SetServiceEnabled(name: string, enabled: bool)
      modifies this`managed
      ensures managed == WithEnabled(old(managed), name, enabled)
    {
      managed := WithEnabled(managed, name, enabled);
    }

    /** The service and its state go together. */
    method DeleteService(name: string)
      modifies this`managed, this`rows
      ensures managed == Without(old(managed), name) && rows == old(rows) - {name}
    {
      managed := Without(managed, name);
      rows := rows - {name};
    }
  }
}
