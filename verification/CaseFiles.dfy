/** The batched file lookup of `fetch_test_cases` (postgres.py): one query for the files of all
    test cases, grouped in memory. */
module CaseFiles {

  /** A row of the files query: the case it belongs to and the path. */
  datatype FileRow = FileRow(caseId: int, path: string)

  class FetchedCase {
    const id: int
    var files: seq<string>

    constructor (id: int)
      ensures this.id == id && files == []
    {
      this.id := id;
      files := [];
    }
  }

  /** What a separate query for the one case `id` would return. */
  function FilesFor(rows: seq<FileRow>, id: int): seq<string> {
    if rows == [] then []
    else
      var prefix := FilesFor(rows[..|rows| - 1], id);
      var last := rows[|rows| - 1];
      if last.caseId == id then prefix + [last.path] else prefix
  }

  function GetOr(m: map<int, seq<string>>, id: int): seq<string> {
    if id in m then m[id] else []
  }

  /** The dictionary built by `setdefault(...).append(...)` over the returned rows. */
  method GroupByCase(rows: seq<FileRow>) returns (filesByCase: map<int, seq<string>>)
    ensures forall id :: GetOr(filesByCase, id) == FilesFor(rows, id)
  {
    filesByCase := map[];
    for i := 0 to |rows|
      invariant forall id :: GetOr(filesByCase, id) == FilesFor(rows[..i], id)
    {
      ghost var before := filesByCase;
      var row := rows[i];
      filesByCase := filesByCase[row.caseId := GetOr(filesByCase, row.caseId) + [row.path]];
      assert rows[..i + 1][..i] == rows[..i];
      forall id ensures GetOr(filesByCase, id) == FilesFor(rows[..i + 1], id) {
        assert GetOr(before, id) == FilesFor(rows[..i], id);
      }
    }
    assert rows[..|rows|] == rows;
  }

  /** `fetch_test_cases`: `ids` are the rows of the first query, `rows` those of the second, which
      is not issued when there is no test case. */
  method FetchTestCases(ids: seq<int>, rows: seq<FileRow>) returns (cases: seq<FetchedCase>)
    ensures |cases| == |ids|
    ensures forall i :: 0 <= i < |ids| ==>
              fresh(cases[i]) && cases[i].id == ids[i] && cases[i].files == FilesFor(rows, ids[i])
  {
    cases := [];
    for i := 0 to |ids|
      invariant |cases| == i
      invariant forall k :: 0 <= k < i ==> fresh(cases[k]) && cases[k].id == ids[k]
    {
      var testCase := new FetchedCase(ids[i]);
      cases := cases + [testCase];
    }
    if |cases| > 0 {
      var filesByCase := GroupByCase(rows);
      for i := 0 to |cases|
        invariant forall k :: 0 <= k < i ==> cases[k].files == FilesFor(rows, cases[k].id)
      {
        cases[i].files := GetOr(filesByCase, cases[i].id);
      }
    }
  }

  lemma {:induction false} FilesForAppend(a: seq<FileRow>, b: seq<FileRow>, id: int)
    ensures FilesFor(a + b, id) == FilesFor(a, id) + FilesFor(b, id)
  {
    if b == [] {
      assert a + b == a;
    } else {
      var b', last := b[..|b| - 1], b[|b| - 1];
      assert (a + b)[..|a + b| - 1] == a + b';
      FilesForAppend(a, b', id);
    }
  }

  /** With `FilesForAppend`: a case gets the paths of its own rows, in the order they were returned. */
  lemma FilesForRow(row: FileRow, id: int)
    ensures FilesFor([row], id) == if row.caseId == id then [row.path] else []
  {
    assert [row][..0] == [];
  }

  ghost predicate NoCase(rows: seq<FileRow>, id: int) {
    forall k :: 0 <= k < |rows| ==> rows[k].caseId != id
  }

  lemma {:induction false} FilesForNoCase(rows: seq<FileRow>, id: int)
    requires NoCase(rows, id)
    ensures FilesFor(rows, id) == []
  {
    if rows != [] { FilesForNoCase(rows[..|rows| - 1], id); }
  }

  /** Rows of other cases may be returned anywhere in between: a case's files do not change. */
  lemma OtherRowsDoNotMatter(a: seq<FileRow>, others: seq<FileRow>, b: seq<FileRow>, id: int)
    requires NoCase(others, id)
    ensures FilesFor(a + others + b, id) == FilesFor(a + b, id)
  {
    FilesForAppend(a + others, b, id);
    FilesForAppend(a, others, id);
    FilesForNoCase(others, id);
    FilesForAppend(a, b, id);
  }

  /** The number of paths handed out to the cases `ids`. */
  function Handed(rows: seq<FileRow>, ids: seq<int>): nat {
    if ids == [] then 0 else |FilesFor(rows, ids[0])| + Handed(rows, ids[1..])
  }

  lemma {:induction false} HandedSnoc(rows: seq<FileRow>, row: FileRow, ids: seq<int>)
    requires forall i, j :: 0 <= i < j < |ids| ==> ids[i] != ids[j]
    ensures Handed(rows + [row], ids) == Handed(rows, ids) + if row.caseId in ids then 1 else 0
  {
    if ids != [] {
      assert (rows + [row])[..|rows|] == rows;
      HandedSnoc(rows, row, ids[1..]);
      assert row.caseId in ids <==> row.caseId == ids[0] || row.caseId in ids[1..];
    }
  }

  /** Conservation: with distinct cases, every returned row ends up with exactly one case. */
  lemma {:induction false} EveryRowHandedOnce(rows: seq<FileRow>, ids: seq<int>)
    requires forall i, j :: 0 <= i < j < |ids| ==> ids[i] != ids[j]
    requires forall k :: 0 <= k < |rows| ==> rows[k].caseId in ids
    ensures Handed(rows, ids) == |rows|
  {
    if rows == [] {
      NothingHanded(ids);
    } else {
      var prefix := rows[..|rows| - 1];
      EveryRowHandedOnce(prefix, ids);
      HandedSnoc(prefix, rows[|rows| - 1], ids);
      assert rows == prefix + [rows[|rows| - 1]];
    }
  }

  lemma {:induction false} NothingHanded(ids: seq<int>)
    ensures Handed([], ids) == 0
  {
    if ids != [] { NothingHanded(ids[1..]); }
  }
}
