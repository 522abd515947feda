/** The approval notifier: every owner and admin, page by page. */
module NotifyApproval {
  import opened Wrappers
  import opened Paging
  import opened KeysetPaging

  datatype Role = Owner | Admin | Member

  datatype Membership = Membership(row: Row, role: Role)

  function Managers(ms: seq<Membership>): seq<Row> {
    if ms == [] then [] else (if ms[0].role.Member? then [] else [ms[0].row]) + Managers(ms[1..])
  }

  predicate SortedById(ms: seq<Membership>) {
    forall i, j :: 0 <= i < j < |ms| ==> ms[i].row.id < ms[j].row.id
  }

  /** The unique index on organisation and user. */
  predicate OnePerUser(ms: seq<Membership>) {
    forall i, j :: 0 <= i < j < |ms| ==> ms[i].row.user != ms[j].row.user
  }

  ghost predicate IsManagerRow(ms: seq<Membership>, r: Row) {
    exists i :: 0 <= i < |ms| && ms[i].row == r && !ms[i].role.Member?
  }

  lemma {:induction false} ManagersAreRows(ms: seq<Membership>, r: Row)
    ensures r in Managers(ms) <==> IsManagerRow(ms, r)
  {
    if ms != [] {
      var rest := ms[1..];
      ManagersAreRows(rest, r);
      if i :| 0 <= i < |ms| && ms[i].row == r && !ms[i].role.Member? {
        assert i > 0 ==> rest[i - 1] == ms[i];
      }
      if j :| 0 <= j < |rest| && rest[j].row == r && !rest[j].role.Member? {
        assert ms[j + 1] == rest[j];
      }
    }
  }

  lemma {:induction false} ManagersAreInOrder(ms: seq<Membership>)
    ensures SortedById(ms) ==> Sorted(Managers(ms))
    ensures OnePerUser(ms) ==> forall i, j :: 0 <= i < j < |Managers(ms)| ==> Managers(ms)[i].user != Managers(ms)[j].user
  {
    if ms != [] {
      var rest := ms[1..];
      ManagersAreInOrder(rest);
      forall j | 0 <= j < |Managers(rest)| ensures exists i :: 1 <= i < |ms| && ms[i].row == Managers(rest)[j] {
        ManagersAreRows(rest, Managers(rest)[j]);
        var i :| 0 <= i < |rest| && rest[i].row == Managers(rest)[j] && !rest[i].role.Member?;
        assert ms[i + 1].row == Managers(rest)[j];
      }
    }
  }

  /** The users of the rows, without the actor. */
  function Recipients(rows: seq<Row>, actor: Option<UserId>): seq<UserId> {
    if rows == [] then []
    else (if Some(rows[0].user) == actor then [] else [rows[0].user]) + Recipients(rows[1..], actor)
  }

  lemma {:induction false} RecipientsOfConcat(a: seq<Row>, b: seq<Row>, actor: Option<UserId>)
    ensures Recipients(a + b, actor) == Recipients(a, actor) + Recipients(b, actor)
  {
    if a == [] {
      assert a + b == b;
    } else {
      RecipientsOfConcat(a[1..], b, actor);
      assert (a + b)[1..] == a[1..] + b;
      var first := if Some(a[0].user) == actor then [] else [a[0].user];
      Assoc(first, Recipients(a[1..], actor), Recipients(b, actor));
    }
  }

  ghost predicate HasUser(rows: seq<Row>, u: UserId) {
    exists i :: 0 <= i < |rows| && rows[i].user == u
  }

  lemma {:induction false} RecipientsAreUsers(rows: seq<Row>, actor: Option<UserId>, u: UserId)
    ensures u in Recipients(rows, actor) <==> Some(u) != actor && HasUser(rows, u)
  {
    if rows != [] {
      var rest := rows[1..];
      RecipientsAreUsers(rest, actor, u);
      if i :| 0 <= i < |rows| && rows[i].user == u {
        assert i > 0 ==> rest[i - 1].user == u;
      }
      if j :| 0 <= j < |rest| && rest[j].user == u {
        assert rows[j + 1].user == u;
      }
    }
  }

  lemma {:induction false} RecipientsAreDistinct(rows: seq<Row>, actor: Option<UserId>)
    requires forall i, j :: 0 <= i < j < |rows| ==> rows[i].user != rows[j].user
    ensures Distinct(Recipients(rows, actor))
  {
    if rows != [] {
      RecipientsAreDistinct(rows[1..], actor);
      RecipientsAreUsers(rows[1..], actor, rows[0].user);
    }
  }

  function ManagerPage(ms: seq<Membership>, afterId: Option<int>, pageSize: nat): seq<Row> {
    Take(After(Managers(ms), afterId), pageSize)
  }

  /** A page and what is behind it are what was behind the key. */
  lemma {:induction false} NextPage(ms: seq<Membership>, actor: Option<UserId>, afterId: Option<int>, pageSize: nat)
    requires SortedById(ms) && pageSize >= 1
    ensures var rest, page := After(Managers(ms), afterId), ManagerPage(ms, afterId, pageSize);
            if |page| < pageSize then page == rest
            else
              var behind := After(Managers(ms), Some(page[|page| - 1].id));
              |behind| < |rest| && Recipients(rest, actor) == Recipients(page, actor) + Recipients(behind, actor)
  {
    ManagersAreInOrder(ms);
    var rest := After(Managers(ms), afterId);
    if |rest| >= pageSize {
      NextQuery(Managers(ms), afterId, pageSize);
      SplitFrom(rest, 0, pageSize);
      assert rest[0..] == rest && rest[0..pageSize] == rest[..pageSize];
      RecipientsOfConcat(rest[..pageSize], rest[pageSize..], actor);
      assert Take(rest, pageSize) == rest[..pageSize];
    }
  }

  /** What has been notified, a page and what is behind it make up the whole. */
  lemma {:induction false} NotifiedSoFar(ms: seq<Membership>, actor: Option<UserId>, afterId: Option<int>, pageSize: nat, notified: seq<UserId>)
    requires SortedById(ms) && pageSize >= 1
    requires notified + Recipients(After(Managers(ms), afterId), actor) == Recipients(Managers(ms), actor)
    ensures var rest, page := After(Managers(ms), afterId), ManagerPage(ms, afterId, pageSize);
            var sofar := notified + Recipients(page, actor);
            && (Recipients(page, actor) == [] ==> sofar == notified)
            && (page == [] ==> Recipients(page, actor) == [])
            && if |page| < pageSize then sofar == Recipients(Managers(ms), actor)
               else
                 var behind := After(Managers(ms), Some(page[|page| - 1].id));
                 |behind| < |rest| && sofar + Recipients(behind, actor) == Recipients(Managers(ms), actor)
  {
    NextPage(ms, actor, afterId, pageSize);
    var page := ManagerPage(ms, afterId, pageSize);
    if |page| >= pageSize {
      Assoc(notified, Recipients(page, actor), Recipients(After(Managers(ms), Some(page[|page| - 1].id)), actor));
    }
  }

  /** Passes every owner and admin but the actor to notifyUsers, in key order, page by page. */
  method NotifyApprovalRequired(ms: seq<Membership>, actor: Option<UserId>, pageSize: nat) returns (notified: seq<UserId>)
    requires pageSize >= 1 && SortedById(ms)
    ensures notified == Recipients(Managers(ms), actor)
  {
    var afterId: Option<int> := None;
    notified := [];
    while true
      invariant notified + Recipients(After(Managers(ms), afterId), actor) == Recipients(Managers(ms), actor)
      decreases |After(Managers(ms), afterId)|
    {
      NotifiedSoFar(ms, actor, afterId, pageSize, notified);
      var page := ManagerPage(ms, afterId, pageSize);
      if page == [] {
        return;
      }
      var recipients := Recipients(page, actor);
      if recipients != [] {
        notified := notified + recipients;
      }
      if |page| < pageSize {
        return;
      }
      afterId := Some(page[|page| - 1].id);
    }
  }

  /** With one membership per user each of them is notified exactly once, and nobody else. */
  lemma {:induction false} EveryManagerOnce(ms: seq<Membership>, actor: Option<UserId>, u: UserId)
    requires OnePerUser(ms)
    ensures Distinct(Recipients(Managers(ms), actor))
    ensures u in Recipients(Managers(ms), actor) <==>
      Some(u) != actor && exists i :: 0 <= i < |ms| && ms[i].row.user == u && !ms[i].role.Member?
  {
    ManagersAreInOrder(ms);
    var rows := Managers(ms);
    RecipientsAreDistinct(rows, actor);
    RecipientsAreUsers(rows, actor, u);
    if i :| 0 <= i < |rows| && rows[i].user == u {
      ManagersAreRows(ms, rows[i]);
    }
    if i :| 0 <= i < |ms| && ms[i].row.user == u && !ms[i].role.Member? {
      ManagersAreRows(ms, ms[i].row);
    }
  }
}
