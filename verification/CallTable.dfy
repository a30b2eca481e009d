/** The calls table: a finite map from ids to rows. */
module CallTable {
  datatype Row = Row(id: nat, dateTime: int, system: nat, talkgroup: nat, patches: seq<nat>)

  type Table = t: map<nat, Row> | forall id | id in t :: t[id].id == id witness map[]

  function Rows(t: Table): (s: set<Row>)
    ensures forall r :: r in s <==> r.id in t && t[r.id] == r
  {
    set id | id in t :: t[id]
  }
}
