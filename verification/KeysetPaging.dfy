/** Paging by key over rows in key order: the directory's search. */
module KeysetPaging {
  import opened Wrappers
  import opened Paging

  datatype Row = Row(id: int, user: UserId)

  predicate Sorted(rows: seq<Row>) {
    forall i, j :: 0 <= i < j < |rows| ==> rows[i].id < rows[j].id
  }

  /** The rows behind a key. */
  function Behind(rows: seq<Row>, key: int): seq<Row> {
    if rows == [] then [] else (if rows[0].id > key then [rows[0]] else []) + Behind(rows[1..], key)
  }

  function After(rows: seq<Row>, key: Option<int>): seq<Row> {
    if key.None? then rows else Behind(rows, key.value)
  }

  lemma {:induction false} AllBehind(rows: seq<Row>, key: int)
    requires forall i :: 0 <= i < |rows| ==> rows[i].id > key
    ensures Behind(rows, key) == rows
  {
    if rows != [] {
      AllBehind(rows[1..], key);
    }
  }

  lemma {:induction false} BehindIsSuffix(rows: seq<Row>, k: nat)
    requires Sorted(rows) && k < |rows|
    ensures Behind(rows, rows[k].id) == rows[k + 1..]
  {
    if k == 0 {
      AllBehind(rows[1..], rows[0].id);
    } else {
      BehindIsSuffix(rows[1..], k - 1);
      assert rows[1..][k - 1] == rows[k];
    }
  }

  function Take(rows: seq<Row>, n: nat): seq<Row> {
    if |rows| <= n then rows else rows[..n]
  }

  /** Search results: one row more than the limit is read to learn whether there is a next page. */
  function SearchPage(rows: seq<Row>, cursor: Option<int>, limit: nat): (seq<Row>, Option<int>)
    requires limit >= 1
  {
    var read := Take(After(rows, cursor), limit + 1);
    var page := Take(read, limit);
    (page, if |read| > limit then Some(page[|page| - 1].id) else None)
  }

  lemma {:induction false} BehindComposes(rows: seq<Row>, first: int, second: int)
    requires first <= second
    ensures Behind(Behind(rows, first), second) == Behind(rows, second)
  {
    if rows != [] {
      BehindComposes(rows[1..], first, second);
      if rows[0].id > first {
        assert Behind(rows, first)[1..] == Behind(rows[1..], first);
      } else {
        assert Behind(rows, first) == Behind(rows[1..], first) && Behind(rows, second) == Behind(rows[1..], second);
      }
    }
  }

  lemma {:induction false} BehindIsSorted(rows: seq<Row>, key: int)
    requires Sorted(rows)
    ensures Sorted(Behind(rows, key)) && forall i :: 0 <= i < |Behind(rows, key)| ==> Behind(rows, key)[i].id > key
    ensures forall r :: r in Behind(rows, key) ==> r in rows
  {
    if rows != [] {
      BehindIsSorted(rows[1..], key);
      forall i | 0 <= i < |Behind(rows[1..], key)| ensures Behind(rows[1..], key)[i].id > rows[0].id {
        assert Behind(rows[1..], key)[i] in rows[1..];
      }
    }
  }

  /** A query behind the last row read reads on where that page ended, whatever the key before it was. */
  lemma NextQuery(rows: seq<Row>, key: Option<int>, n: nat)
    requires Sorted(rows) && 0 < n <= |After(rows, key)|
    ensures After(rows, Some(After(rows, key)[n - 1].id)) == After(rows, key)[n..]
  {
    var rest := After(rows, key);
    if key.Some? {
      BehindIsSorted(rows, key.value);
      BehindComposes(rows, key.value, rest[n - 1].id);
    }
    BehindIsSuffix(rest, n - 1);
  }

  lemma SearchPageReadsOn(rows: seq<Row>, cursor: Option<int>, limit: nat)
    requires limit >= 1 && Sorted(rows)
    ensures var rest, (page, next) := After(rows, cursor), SearchPage(rows, cursor, limit);
            && page == Take(rest, limit) && (next.Some? <==> |rest| > limit)
            && (next.Some? ==> After(rows, next) == rest[limit..])
  {
    var rest := After(rows, cursor);
    if |rest| > limit {
      assert Take(Take(rest, limit + 1), limit) == rest[..limit];
      NextQuery(rows, cursor, limit);
    }
  }

  /** The pages of a client that follows the cursor until it is null. */
  ghost function FollowSearch(rows: seq<Row>, cursor: Option<int>, limit: nat): seq<seq<Row>>
    requires limit >= 1 && Sorted(rows)
    decreases |After(rows, cursor)|
  {
    SearchPageReadsOn(rows, cursor, limit);
    var (page, next) := SearchPage(rows, cursor, limit);
    if next.None? then [page] else [page] + FollowSearch(rows, next, limit)
  }

  /** From any cursor the search's pages are the matching rows behind it, once each and in key order. */
  lemma {:induction false} SearchPagesAreTheRows(rows: seq<Row>, cursor: Option<int>, limit: nat)
    requires limit >= 1 && Sorted(rows)
    ensures Concat(FollowSearch(rows, cursor, limit)) == After(rows, cursor)
    decreases |After(rows, cursor)|
  {
    SearchPageReadsOn(rows, cursor, limit);
    var rest := After(rows, cursor);
    var (page, next) := SearchPage(rows, cursor, limit);
    if next.None? {
      ConcatOne(page);
    } else {
      SearchPagesAreTheRows(rows, next, limit);
      ConcatCons(page, FollowSearch(rows, next, limit));
      SplitFrom(rest, 0, limit);
      assert rest[0..] == rest;
    }
  }
}
