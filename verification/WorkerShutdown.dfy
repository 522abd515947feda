/** The shutdown object itself; each method is the code from one await to the next. */
module WorkerShutdown {
  import opened ShutdownProtocol
  import opened Wrappers

  class Shutdowner {
    var unfinished: set<EventId>
    var requested: bool
    var timer: bool
    var pendingClaim: bool
    var finishing: Finishing
    var released: seq<EventId>  // the calls of release, in order
    var exits: nat

    ghost predicate Valid()
      reads this
    {
      Distinct(released)
    }

    ghost function View(): Shutdown
      reads this
    {
      Shutdown(unfinished, requested, timer, pendingClaim, finishing, IdSet(released), exits)
    }

    constructor ()
      ensures Valid() && View() == Started
    {
      unfinished, requested, timer, pendingClaim, finishing, released, exits := {}, false, false, false, NotStarted, [], 0;
    }

    /** Calls release once for each unfinished id. */
    method ReleaseUnfinished()
      requires Valid() && released == []
      modifies this`released, this`finishing
      ensures Valid() && View() == ReleaseAll(old(View()))
    {
      var left := unfinished;
      finishing := Releases;
      while left != {}
        invariant left <= unfinished && Distinct(released) && finishing == Releases
        invariant IdSet(released) == unfinished - left
        decreases left
      {
        var id :| id in left;
        left := left - {id};
        assert id !in IdSet(released);
        IdSetSnoc(released, id);
        released := released + [id];
      }
    }

    method FinishNow()
      requires Valid() && (finishing.NotStarted? ==> released == [])
      modifies this`timer, this`released, this`finishing
      ensures Valid() && View() == Finish(old(View()))
    {
      if !finishing.NotStarted? {
        return;
      }
      timer := false;
      if pendingClaim {
        finishing := AwaitsClaim;
      } else {
        ReleaseUnfinished();
      }
    }

    /** A second signal means do not wait. */
    method RequestShutdown()
      requires Valid() && (finishing.NotStarted? ==> released == [])
      modifies this`requested, this`timer, this`released, this`finishing
      ensures Valid() && View() == Request(old(View()))
    {
      if requested {
        FinishNow();
        return;
      }
      requested, timer := true, true;
    }

    method OnTimer()
      requires Valid() && timer && (finishing.NotStarted? ==> released == [])
      modifies this`timer, this`released, this`finishing
      ensures Valid() && View() == Finish(old(View()).(timer := false))
    {
      timer := false;
      FinishNow();
    }

    method StartClaim()
      modifies this`pendingClaim
      ensures View() == old(View()).(pendingClaim := true)
    {
      pendingClaim := true;
    }

    /** The claim's events are tracked before anybody that awaits the claim resumes. */
    method ClaimResolved(ids: seq<EventId>)
      modifies this`unfinished
      ensures View() == old(View()).(unfinished := old(unfinished) + IdSet(ids))
    {
      for i := 0 to |ids|
        invariant unfinished == old(unfinished) + IdSet(ids[..i])
      {
        IdSetSnoc(ids[..i], ids[i]);
        assert ids[..i + 1] == ids[..i] + [ids[i]];
        unfinished := unfinished + {ids[i]};
      }
      assert ids[..|ids|] == ids;
    }

    method ClaimReturned()
      modifies this`pendingClaim
      ensures View() == old(View()).(pendingClaim := false)
    {
      pendingClaim := false;
    }

    method Finished(id: EventId)
      modifies this`unfinished
      ensures View() == old(View()).(unfinished := old(unfinished) - {id})
    {
      unfinished := unfinished - {id};
    }

    method AfterPendingClaim()
      requires Valid() && finishing.AwaitsClaim? && released == []
      modifies this`released, this`finishing
      ensures Valid() && View() == ReleaseAll(old(View()))
    {
      ReleaseUnfinished();
    }

    method AfterReleases()
      requires finishing.Releases?
      modifies this`finishing, this`exits
      ensures View() == old(View()).(finishing := Exited, exits := old(exits) + 1)
    {
      finishing, exits := Exited, exits + 1;
    }
  }
}
