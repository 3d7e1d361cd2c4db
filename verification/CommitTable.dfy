/** The commits table: the statements of postgres.py as atomic steps on rows. */
module CommitTable {
  import opened Domain

  /** A statement of an attempt on its own commit. */
  datatype Op = Delete | Write(data: CommitData) | Store(results: seq<CaseResult>)

  type Rows = map<int, Row>

  function Effect(row: Row, op: Op): Row {
    match op
    case Delete => row.(results := [])
    case Write(d) => row.(data := d)
    case Store(rs) => row.(results := row.results + rs)
  }

  /** The unconditional statements match the row by id alone. */
  function Applied(rows: Rows, id: int, op: Op): Rows {
    if id in rows then rows[id := Effect(rows[id], op)] else rows
  }

  predicate Claimable(rows: Rows, id: int) { id in rows && rows[id].data.status.InQueue? }

  /** UPDATE ... SET status = PROCESSING ... WHERE status = IN_QUEUE. */
  function Claimed(rows: Rows, id: int): Rows {
    if Claimable(rows, id)
    then rows[id := rows[id].(data := rows[id].data.(status := Processing, started := true))]
    else rows
  }

  /** UPDATE ... SET status = IN_QUEUE ... WHERE status = PROCESSING. */
  function Released(rows: Rows, id: int): Rows {
    if id in rows && rows[id].data.status.Processing?
    then rows[id := rows[id].(data := rows[id].data.(status := InQueue, started := false))]
    else rows
  }

  /** Giving back a claim right away restores the table exactly when the claim lost, on a row that
      a release would not have touched, or won a queue entry without a start time. */
  lemma ReleaseUndoesClaim(rows: Rows, id: int)
    ensures Released(Claimed(rows, id), id) == rows
       <==> id !in rows || (rows[id].data.status.InQueue? && !rows[id].data.started)
                        || (!rows[id].data.status.InQueue? && !rows[id].data.status.Processing?)
  {
  }

  /** Only row `id` differs, if any. */
  ghost predicate OnlyRow(before: Rows, after: Rows, id: int) {
    after.Keys == before.Keys && forall other :: other in before && other != id ==> after[other] == before[other]
  }

  class Table {
    var rows: Rows

    /** `update_commit`, `delete_commit_test_results` and `store_commit_test_results`: the database may
        raise, before or after the statement takes effect. */
    method Execute(id: int, op: Op) returns (c: Call)
      modifies this
      ensures c.Threw? ==> !c.exc.Cancelled?
      ensures rows == if c.Took() then Applied(old(rows), id, op) else old(rows)
      ensures OnlyRow(old(rows), rows, id) && (c.Threw? && !c.took ==> rows == old(rows))
      ensures c.Took() && id in rows ==>
                match op
                case Delete => rows[id].data == old(rows)[id].data && rows[id].results == []
                case Write(d) => rows[id].data == d && rows[id].results == old(rows)[id].results
                case Store(rs) => rows[id].data == old(rows)[id].data && rows[id].results == old(rows)[id].results + rs
    {
      c :| c.Threw? ==> !c.exc.Cancelled?;
      if c.Took() { rows := Applied(rows, id, op); }
    }

    method ClaimCommit(id: int) returns (c: Call, claimed: bool)
      modifies this
      ensures c.Threw? ==> !c.exc.Cancelled?
      ensures rows == if c.Took() then Claimed(old(rows), id) else old(rows)
      ensures OnlyRow(old(rows), rows, id) && (c.Threw? && !c.took ==> rows == old(rows))
      ensures c.Took() && id in rows ==>
                var was, row := old(rows)[id], rows[id];
                row.results == was.results
                && row.data == if was.data.status.InQueue? then was.data.(status := Processing, started := true)
                               else was.data
      ensures claimed <==> c.Returned? && id in old(rows) && old(rows)[id].data.status.InQueue?
    {
      c :| c.Threw? ==> !c.exc.Cancelled?;
      claimed := c.Returned? && Claimable(rows, id);
      if c.Took() { rows := Claimed(rows, id); }
    }

    method ReleaseCommit(id: int) returns (c: Call)
      modifies this
      ensures c.Threw? ==> !c.exc.Cancelled?
      ensures rows == if c.Took() then Released(old(rows), id) else old(rows)
      ensures OnlyRow(old(rows), rows, id) && (c.Threw? && !c.took ==> rows == old(rows))
      ensures c.Took() && id in rows ==>
                var was, row := old(rows)[id], rows[id];
                row.results == was.results
                && row.data == if was.data.status.Processing? then was.data.(status := InQueue, started := false)
                               else was.data
    {
      c :| c.Threw? ==> !c.exc.Cancelled?;
      if c.Took() { rows := Released(rows, id); }
    }
  }
}
