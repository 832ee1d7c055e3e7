/** How many failed deliveries an outbox can still take before every row of it is settled. */
module OutboxBudget {
  import opened Outbox

  /** Failed deliveries a row can still take before it is dead-lettered. */
  function Remaining(row: Row, budget: nat): nat {
    if !row.Pending() then 0
    else if row.attempts + 1 < budget then budget - row.attempts
    else 1
  }

  /** The sum of `Remaining` over the rows in `ids`. */
  ghost function Total(rows: map<RowId, Row>, budget: nat, ids: set<RowId>): nat
    requires ids <= rows.Keys
  {
    if ids == {} then 0
    else
      var id :| id in ids;
      Remaining(rows[id], budget) + Total(rows, budget, ids - {id})
  }

  ghost function Outstanding(rows: map<RowId, Row>, budget: nat): nat {
    Total(rows, budget, rows.Keys)
  }

  lemma {:induction false} TotalPicks(rows: map<RowId, Row>, budget: nat, ids: set<RowId>, id: RowId)
    requires ids <= rows.Keys && id in ids
    ensures Total(rows, budget, ids) == Remaining(rows[id], budget) + Total(rows, budget, ids - {id})
  {
    var picked :| picked in ids && Total(rows, budget, ids) == Remaining(rows[picked], budget) + Total(rows, budget, ids - {picked});
    if picked != id {
      TotalPicks(rows, budget, ids - {picked}, id);
      TotalPicks(rows, budget, ids - {id}, picked);
      assert ids - {picked} - {id} == ids - {id} - {picked};
    }
  }

  lemma {:induction false} TotalAgrees(rows: map<RowId, Row>, rows': map<RowId, Row>, budget: nat, ids: set<RowId>)
    requires ids <= rows.Keys && ids <= rows'.Keys
    requires forall id :: id in ids ==> Remaining(rows[id], budget) == Remaining(rows'[id], budget)
    ensures Total(rows, budget, ids) == Total(rows', budget, ids)
  {
    if ids != {} {
      var id :| id in ids;
      TotalPicks(rows, budget, ids, id);
      TotalPicks(rows', budget, ids, id);
      TotalAgrees(rows, rows', budget, ids - {id});
    }
  }

  /** Nobody else is delivering: no lease is out and nothing is in memory. */
  ghost predicate Idle(w: World) {
    w.held == {} && w.acked == {} && w.copied == {} && forall id :: id in w.rows ==> !w.rows[id].claimed
  }

  ghost predicate Settled(rows: map<RowId, Row>) {
    forall id :: id in rows ==> !rows[id].Pending()
  }

  lemma {:induction false} SettledIsZero(rows: map<RowId, Row>, budget: nat, ids: set<RowId>)
    requires ids <= rows.Keys
    ensures Total(rows, budget, ids) == 0 <==> forall id :: id in ids ==> !rows[id].Pending()
  {
    if ids != {} {
      var id :| id in ids;
      TotalPicks(rows, budget, ids, id);
      SettledIsZero(rows, budget, ids - {id});
      assert forall i :: i in ids ==> i == id || i in ids - {id};
    }
  }

  /** A row nobody tried yet costs the whole budget: a fresh outbox takes exactly rows times budget deliveries. */
  lemma {:induction false} FreshTotal(rows: map<RowId, Row>, budget: nat, ids: set<RowId>)
    requires ids <= rows.Keys && 0 < budget
    requires forall id :: id in ids ==> rows[id].Pending() && rows[id].attempts == 0
    ensures Total(rows, budget, ids) == |ids| * budget
  {
    if ids != {} {
      var id :| id in ids;
      TotalPicks(rows, budget, ids, id);
      FreshTotal(rows, budget, ids - {id});
      assert |ids| == |ids - {id}| + 1;
      assert (|ids - {id}| + 1) * budget == |ids - {id}| * budget + budget;
    }
  }
}
