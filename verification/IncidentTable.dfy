/** The incident rows an alert receiver reads and writes (internal/store/incidents.go): find the open one for an external
    key, create one under the partial unique index, resolve one under its row lock. */
module IncidentTable {
  import opened Options

  /** An incident. `openedBy` and `closedBy` name the request that did it. The empty key stands for no external key. */
  datatype Row = Row(project: string, key: string, open: bool, openedBy: int, closedBy: int)

  predicate Matches(row: Row, project: string, key: string) {
    row.open && row.project == project && row.key == key
  }

  /** At most one open incident for each project and external key. */
  predicate OneOpen(rows: seq<Row>) {
    forall i, j :: 0 <= i < j < |rows| && rows[i].key != "" && rows[i].open && rows[j].open ==>
      rows[i].project != rows[j].project || rows[i].key != rows[j].key
  }

  /** The newest open incident for a key. */
  function FindOpen(rows: seq<Row>, project: string, key: string): (r: Option<nat>)
    ensures r.Some? ==> r.value < |rows| && Matches(rows[r.value], project, key)
    ensures r.None? <==> forall i :: 0 <= i < |rows| ==> !Matches(rows[i], project, key)
  {
    if |rows| == 0 then None else
    var last := |rows| - 1;
    if Matches(rows[last], project, key) then Some(last) else FindOpen(rows[..last], project, key)
  }

  /** The rows with a new open incident; none when the unique index turns the insert down. */
  function Create(rows: seq<Row>, project: string, key: string, who: int): Option<seq<Row>> {
    if key != "" && FindOpen(rows, project, key).Some? then None
    else Some(rows + [Row(project, key, true, who, -1)])
  }

  /** The rows with incident `i` resolved; none when it was resolved already. */
  function Resolve(rows: seq<Row>, i: nat, who: int): Option<seq<Row>>
    requires i < |rows|
  {
    if !rows[i].open then None else Some(rows[i := rows[i].(open := false, closedBy := who)])
  }

  ghost function OpenKeys(rows: seq<Row>, project: string): set<string> {
    set i | 0 <= i < |rows| && rows[i].open && rows[i].project == project && rows[i].key != "" :: rows[i].key
  }

  lemma OpenKeyFound(rows: seq<Row>, project: string, key: string)
    ensures key in OpenKeys(rows, project) <==> key != "" && FindOpen(rows, project, key).Some?
  {
    if key in OpenKeys(rows, project) {
      var i :| 0 <= i < |rows| && rows[i].open && rows[i].project == project && rows[i].key == key;
      assert Matches(rows[i], project, key);
    }
  }

  lemma CreateKeeps(rows: seq<Row>, project: string, key: string, who: int)
    requires OneOpen(rows) && Create(rows, project, key, who).Some?
    ensures OneOpen(Create(rows, project, key, who).value)
  {
    hide FindOpen;
    var after := Create(rows, project, key, who).value;
    forall i | 0 <= i < |rows|
      ensures key != "" ==> !Matches(after[i], project, key)
    {
      assert after[i] == rows[i];
    }
  }

  lemma ResolveKeeps(rows: seq<Row>, i: nat, who: int)
    requires OneOpen(rows) && i < |rows| && Resolve(rows, i, who).Some?
    ensures OneOpen(Resolve(rows, i, who).value)
  {}

  /** Creating opens exactly the key, in exactly the project. */
  lemma CreateOpens(rows: seq<Row>, project: string, key: string, who: int, other: string)
    requires key != "" && Create(rows, project, key, who).Some?
    ensures key !in OpenKeys(rows, project)
    ensures OpenKeys(Create(rows, project, key, who).value, other) ==
      OpenKeys(rows, other) + if other == project then {key} else {}
  {
    hide FindOpen;
    OpenKeyFound(rows, project, key);
    var after := Create(rows, project, key, who).value;
    forall k | k in OpenKeys(rows, other)
      ensures k in OpenKeys(after, other)
    {
      var i :| 0 <= i < |rows| && rows[i].open && rows[i].project == other && rows[i].key == k;
      assert after[i] == rows[i];
    }
    if other == project {
      assert after[|rows|].key == key;
    }
  }

  /** Resolving closes exactly the key, in exactly the project. */
  lemma ResolveCloses(rows: seq<Row>, i: nat, who: int, other: string)
    requires OneOpen(rows) && i < |rows| && Resolve(rows, i, who).Some? && rows[i].key != ""
    ensures rows[i].key in OpenKeys(rows, rows[i].project)
    ensures OpenKeys(Resolve(rows, i, who).value, other) ==
      OpenKeys(rows, other) - if other == rows[i].project then {rows[i].key} else {}
  {
    var after := Resolve(rows, i, who).value;
    forall k | k in OpenKeys(rows, other) && (other != rows[i].project || k != rows[i].key)
      ensures k in OpenKeys(after, other)
    {
      var n :| 0 <= n < |rows| && rows[n].open && rows[n].project == other && rows[n].key == k;
      assert after[n] == rows[n];
    }
    forall k | k in OpenKeys(after, other)
      ensures k in OpenKeys(rows, other) && (other != rows[i].project || k != rows[i].key)
    {
      var n :| 0 <= n < |after| && after[n].open && after[n].project == other && after[n].key == k;
      assert n != i && after[n] == rows[n];
    }
  }
}
