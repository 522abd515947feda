/** The compose directory: cursor paging over a fixed ordered list, and the list of recent participants. */
module Paging {
  import opened Wrappers

  // ----- Paging an ordered list -----

  /** An object id, ordered as the database orders it. */
  type UserId = nat

  const PAGE_MAX := 20
  const RELATION_CAP := 100

  function Distance(a: int, b: int): nat {
    if a < b then b - a else a - b
  }

  /** The page size nearest to the limit asked for, the largest one without a limit. */
  function ClampLimit(limit: Option<Num>): (n: nat)
    ensures 1 <= n <= PAGE_MAX
    ensures limit.None? || !limit.value.Finite? ==> n == PAGE_MAX
    ensures limit.Some? && limit.value.Finite? ==>
      forall k :: 1 <= k <= PAGE_MAX ==> Distance(n, limit.value.value.Floor) <= Distance(k, limit.value.value.Floor)
  {
    if limit.None? || !limit.value.Finite? then PAGE_MAX
    else
      var whole := limit.value.value.Floor;
      if whole < 1 then 1 else if whole < PAGE_MAX then whole else PAGE_MAX
  }

  /** The index of the first occurrence, or the length. */
  function IndexOf<T(==)>(s: seq<T>, x: T): (i: nat)
    ensures i <= |s| && (i < |s| <==> x in s)
  {
    if s == [] then 0 else if s[0] == x then 0 else 1 + IndexOf(s[1..], x)
  }

  datatype Page<T> = Page(ids: seq<T>, nextCursor: Option<T>)

  /** A cursor that is not in the list starts behind its end. */
  function Start<T(==)>(ordered: seq<T>, cursor: Option<T>): (start: nat)
    ensures start <= |ordered|
  {
    if cursor.None? then 0
    else if cursor.value in ordered then IndexOf(ordered, cursor.value) + 1 else |ordered|
  }

  function PageOrderedIds<T(==)>(ordered: seq<T>, cursor: Option<T>, limit: nat): (p: Page<T>)
    requires limit >= 1
    ensures |p.ids| <= limit && (p.nextCursor.Some? ==> |p.ids| == limit)
  {
    var start := Start(ordered, cursor);
    var end := if start + limit < |ordered| then start + limit else |ordered|;
    var ids := ordered[start..end];
    Page(ids, if start + limit < |ordered| && ids != [] then Some(ids[|ids| - 1]) else None)
  }

  lemma {:induction false} IndexOfAt<T>(s: seq<T>, i: nat)
    requires Distinct(s) && i < |s|
    ensures IndexOf(s, s[i]) == i
  {
    if i > 0 {
      assert s[0] != s[i] && s[i] == s[1..][i - 1];
      IndexOfAt(s[1..], i - 1);
    }
  }

  lemma NextStart<T>(ordered: seq<T>, cursor: Option<T>, limit: nat)
    requires limit >= 1 && Distinct(ordered) && PageOrderedIds(ordered, cursor, limit).nextCursor.Some?
    ensures Start(ordered, PageOrderedIds(ordered, cursor, limit).nextCursor) == Start(ordered, cursor) + limit < |ordered|
  {
    var start := Start(ordered, cursor);
    assert PageOrderedIds(ordered, cursor, limit).nextCursor == Some(ordered[start + limit - 1]);
    IndexOfAt(ordered, start + limit - 1);
  }

  lemma LastPageIsTheRest<T>(ordered: seq<T>, cursor: Option<T>, limit: nat)
    requires limit >= 1 && PageOrderedIds(ordered, cursor, limit).nextCursor.None?
    ensures PageOrderedIds(ordered, cursor, limit).ids == ordered[Start(ordered, cursor)..]
  {
  }

  lemma PageJoinsTheNext<T>(ordered: seq<T>, cursor: Option<T>, limit: nat)
    requires limit >= 1 && Distinct(ordered) && PageOrderedIds(ordered, cursor, limit).nextCursor.Some?
    ensures var p := PageOrderedIds(ordered, cursor, limit);
            p.ids + ordered[Start(ordered, p.nextCursor)..] == ordered[Start(ordered, cursor)..]
  {
    NextStart(ordered, cursor, limit);
    SplitFrom(ordered, Start(ordered, cursor), limit);
  }

  /** The pages of a client that follows the cursor until it is null. */
  ghost function FollowCursor<T>(ordered: seq<T>, cursor: Option<T>, limit: nat): seq<seq<T>>
    requires limit >= 1 && Distinct(ordered)
    decreases |ordered| - Start(ordered, cursor)
  {
    var p := PageOrderedIds(ordered, cursor, limit);
    if p.nextCursor.None? then [p.ids]
    else
      NextStart(ordered, cursor, limit);
      [p.ids] + FollowCursor(ordered, p.nextCursor, limit)
  }

  function Concat<T>(pages: seq<seq<T>>): seq<T> {
    if pages == [] then [] else pages[0] + Concat(pages[1..])
  }

  lemma Assoc<T>(a: seq<T>, b: seq<T>, c: seq<T>)
    ensures (a + b) + c == a + (b + c)
  {
  }

  lemma SplitFrom<T>(s: seq<T>, start: nat, n: nat)
    requires start + n <= |s|
    ensures s[start..] == s[start..start + n] + s[start + n..]
  {
  }

  lemma ConcatCons<T>(first: seq<T>, rest: seq<seq<T>>)
    ensures Concat([first] + rest) == first + Concat(rest)
  {
    assert ([first] + rest)[1..] == rest;
  }

  lemma ConcatOne<T>(page: seq<T>)
    ensures Concat([page]) == page
  {
    assert Concat([page]) == page + [];
  }

  lemma {:induction false} PagesFromCursor<T>(ordered: seq<T>, cursor: Option<T>, limit: nat)
    requires limit >= 1 && Distinct(ordered)
    ensures Concat(FollowCursor(ordered, cursor, limit)) == ordered[Start(ordered, cursor)..]
    decreases |ordered| - Start(ordered, cursor)
  {
    var p := PageOrderedIds(ordered, cursor, limit);
    if p.nextCursor.None? {
      LastPageIsTheRest(ordered, cursor, limit);
      ConcatOne(p.ids);
    } else {
      NextStart(ordered, cursor, limit);
      PagesFromCursor(ordered, p.nextCursor, limit);
      ConcatCons(p.ids, FollowCursor(ordered, p.nextCursor, limit));
      PageJoinsTheNext(ordered, cursor, limit);
    }
  }

  /** Following the cursor from null ends, and the pages are the list: every id once, in order. */
  lemma PagesAreTheList<T>(ordered: seq<T>, limit: nat)
    requires limit >= 1 && Distinct(ordered)
    ensures Concat(FollowCursor(ordered, None, limit)) == ordered
  {
    PagesFromCursor(ordered, None, limit);
  }

  /** A cursor whose id has left the list ends the walk with nothing. */
  lemma {:induction false} StaleCursorEndsTheWalk<T>(ordered: seq<T>, cursor: T, limit: nat)
    requires limit >= 1 && Distinct(ordered) && cursor !in ordered
    ensures Concat(FollowCursor(ordered, Some(cursor), limit)) == []
  {
    PagesFromCursor(ordered, Some(cursor), limit);
  }

  function Keep<T>(s: seq<T>, p: T -> bool): seq<T> {
    if s == [] then [] else (if p(s[0]) then [s[0]] else []) + Keep(s[1..], p)
  }

  lemma {:induction false} KeepOfConcat<T>(a: seq<T>, b: seq<T>, p: T -> bool)
    ensures Keep(a + b, p) == Keep(a, p) + Keep(b, p)
  {
    if a == [] {
      assert a + b == b;
    } else {
      KeepOfConcat(a[1..], b, p);
      assert (a + b)[1..] == a[1..] + b;
      var first := if p(a[0]) then [a[0]] else [];
      Assoc(first, Keep(a[1..], p), Keep(b, p));
    }
  }

  function KeepEach<T>(pages: seq<seq<T>>, p: T -> bool): seq<seq<T>> {
    if pages == [] then [] else [Keep(pages[0], p)] + KeepEach(pages[1..], p)
  }

  /** Dropping inactive users page by page gives the active users of the whole list. */
  lemma {:induction false} ActivePagesAreTheActiveList<T>(pages: seq<seq<T>>, p: T -> bool)
    ensures Concat(KeepEach(pages, p)) == Keep(Concat(pages), p)
  {
    if pages != [] {
      ActivePagesAreTheActiveList(pages[1..], p);
      KeepOfConcat(pages[0], Concat(pages[1..]), p);
      assert KeepEach(pages, p)[1..] == KeepEach(pages[1..], p);
    }
  }

  // ----- The recent participants -----

  function Flatten<T>(lists: seq<seq<T>>): seq<T> {
    if lists == [] then [] else Flatten(lists[..|lists| - 1]) + lists[|lists| - 1]
  }

  /** First occurrences of valid ids other than the actor's. */
  function Others(ids: seq<Option<UserId>>, actor: UserId): seq<UserId> {
    if ids == [] then []
    else
      var before, last := Others(ids[..|ids| - 1], actor), ids[|ids| - 1];
      if last.None? || last.value == actor || last.value in before then before else before + [last.value]
  }

  lemma {:induction false} OthersSnoc(ids: seq<Option<UserId>>, last: Option<UserId>, actor: UserId)
    ensures var before := Others(ids, actor);
            Others(ids + [last], actor) ==
              if last.None? || last.value == actor || last.value in before then before else before + [last.value]
  {
    assert (ids + [last])[..|ids|] == ids;
  }

  lemma {:induction false} OthersAreDistinct(ids: seq<Option<UserId>>, actor: UserId)
    ensures Distinct(Others(ids, actor)) && actor !in Others(ids, actor)
    ensures forall x: UserId :: x in Others(ids, actor) <==> x != actor && Some(x) in ids
  {
    if ids != [] {
      var init := ids[..|ids| - 1];
      OthersAreDistinct(init, actor);
      assert forall x :: x in ids <==> x in init || x == ids[|ids| - 1];
    }
  }

  /** Later ids are only appended. */
  lemma {:induction false} OthersGrow(a: seq<Option<UserId>>, b: seq<Option<UserId>>, actor: UserId)
    ensures Others(a, actor) <= Others(a + b, actor)
  {
    if b == [] {
      assert a + b == a;
    } else {
      OthersGrow(a, b[..|b| - 1], actor);
      assert (a + b)[..|a + b| - 1] == a + b[..|b| - 1];
    }
  }

  lemma {:induction false} FlattenPrefix<T>(lists: seq<seq<T>>, i: nat)
    requires i <= |lists|
    ensures Flatten(lists[..i]) <= Flatten(lists)
  {
    if i == |lists| {
      assert lists[..i] == lists;
    } else {
      FlattenPrefix(lists[..|lists| - 1], i);
      assert lists[..|lists| - 1][..i] == lists[..i];
    }
  }

  function Capped(s: seq<UserId>): (r: seq<UserId>)
    ensures r <= s && |r| <= RELATION_CAP && (|r| < RELATION_CAP ==> r == s)
  {
    if |s| <= RELATION_CAP then s else s[..RELATION_CAP]
  }

  /** Once the cap is reached nothing behind it counts. */
  lemma {:induction false} CapIsFinal(a: seq<Option<UserId>>, b: seq<Option<UserId>>, actor: UserId)
    requires |Others(a, actor)| >= RELATION_CAP
    ensures Capped(Others(a + b, actor)) == Capped(Others(a, actor))
  {
    OthersGrow(a, b, actor);
  }

  lemma {:induction false} ReadOne(before: seq<Option<UserId>>, who: seq<Option<UserId>>, j: nat, actor: UserId)
    requires j < |who|
    ensures var read, id := Others(before + who[..j], actor), who[j];
            Others(before + who[..j + 1], actor) ==
              if id.None? || id.value == actor || id.value in read then read else read + [id.value]
    ensures |Others(before + who[..j + 1], actor)| == RELATION_CAP ==>
      Capped(Others(before + who, actor)) == Others(before + who[..j + 1], actor)
  {
    OthersSnoc(before + who[..j], who[j], actor);
    assert before + who[..j + 1] == (before + who[..j]) + [who[j]];
    if |Others(before + who[..j + 1], actor)| >= RELATION_CAP {
      CapIsFinal(before + who[..j + 1], who[j + 1..], actor);
      assert (before + who[..j + 1]) + who[j + 1..] == before + who;
    }
  }

  ghost predicate SameElements(seen: set<UserId>, ordered: seq<UserId>) {
    forall x: UserId :: x in seen <==> x in ordered
  }

  lemma SameAfterAdding(seen: set<UserId>, ordered: seq<UserId>, x: UserId)
    requires SameElements(seen, ordered)
    ensures SameElements(seen + {x}, ordered + [x])
  {
  }

  lemma WholeConversation(before: seq<Option<UserId>>, who: seq<Option<UserId>>)
    ensures before + who[..0] == before && before + who[..|who|] == before + who
  {
    assert who[..|who|] == who;
  }

  /** One conversation's participants; `full` once the cap is reached. */
  method AddParticipants(who: seq<Option<UserId>>, actor: UserId, from: seq<UserId>, seenFrom: set<UserId>, ghost before: seq<Option<UserId>>)
    returns (ordered: seq<UserId>, seen: set<UserId>, full: bool)
    requires from == Others(before, actor) && |from| < RELATION_CAP && SameElements(seenFrom, from)
    ensures ordered == Capped(Others(before + who, actor))
    ensures full <==> |ordered| == RELATION_CAP
    ensures SameElements(seen, ordered)
  {
    ordered, seen, full := from, seenFrom, false;
    WholeConversation(before, who);
    for j := 0 to |who|
      invariant ordered == Others(before + who[..j], actor) && |ordered| < RELATION_CAP
      invariant SameElements(seen, ordered)
    {
      ReadOne(before, who, j, actor);
      var id := who[j];
      if id.None? || id.value == actor || id.value in seen {
        continue;
      }
      SameAfterAdding(seen, ordered, id.value);
      seen := seen + {id.value};
      ordered := ordered + [id.value];
      if |ordered| >= RELATION_CAP {
        return ordered, seen, true;
      }
    }
  }

  /** The first hundred distinct other participants, most recent conversation first. */
  method LoadRecentParticipantIds(conversations: seq<seq<Option<UserId>>>, actor: UserId) returns (ordered: seq<UserId>)
    ensures ordered == Capped(Others(Flatten(conversations), actor))
  {
    ordered := [];
    var seen: set<UserId> := {};
    for i := 0 to |conversations|
      invariant ordered == Others(Flatten(conversations[..i]), actor) && |ordered| < RELATION_CAP
      invariant SameElements(seen, ordered)
    {
      var full;
      FlattenSnoc(conversations, i);
      ordered, seen, full := AddParticipants(conversations[i], actor, ordered, seen, Flatten(conversations[..i]));
      if full {
        FlattenPrefix(conversations, i + 1);
        ghost var read, all := Flatten(conversations[..i + 1]), Flatten(conversations);
        CapIsFinal(read, all[|read|..], actor);
        assert read + all[|read|..] == all;
        return;
      }
    }
    assert conversations[..|conversations|] == conversations;
  }

  lemma {:induction false} FlattenSnoc<T>(lists: seq<seq<T>>, i: nat)
    requires i < |lists|
    ensures Flatten(lists[..i + 1]) == Flatten(lists[..i]) + lists[i]
    ensures lists[i][..|lists[i]|] == lists[i]
  {
    assert lists[..i + 1][..i] == lists[..i];
  }
}
