/**
 The refresh of every conversation, over the module's in-flight map and trailing set.  Each
 method is the code from one await to the next; a promise is the number of its fetch.
 */
module RefreshStore {
  import opened Wrappers
  import opened RefreshProtocol

  type ConversationId = string

  class SuggestionRefresher {
    var inFlight: map<ConversationId, nat>
    var pendingTrailingRefresh: set<ConversationId>
    var started: map<ConversationId, nat>
    ghost var settled: map<ConversationId, nat>
    ghost var callers: map<ConversationId, seq<Caller>>

    constructor ()
      ensures forall c :: View(c) == Idle
    {
      inFlight, pendingTrailingRefresh, started := map[], {}, map[];
      settled, callers := map[], map[];
    }

    ghost function View(c: ConversationId): State
      reads this
    {
      State(if c in inFlight then Some(inFlight[c]) else None,
            c in pendingTrailingRefresh,
            if c in started then started[c] else 0,
            if c in settled then settled[c] else 0,
            if c in callers then callers[c] else [])
    }

    twostate predicate OthersUnchanged(c: ConversationId)
      reads this
    {
      && inFlight - {c} == old(inFlight) - {c} && pendingTrailingRefresh - {c} == old(pendingTrailingRefresh) - {c}
      && started - {c} == old(started) - {c} && settled - {c} == old(settled) - {c} && callers - {c} == old(callers) - {c}
    }

    /** From the top of the loop to its next await or return. */
    method RunLoop(c: ConversationId) returns (pc: Pc)
      modifies this`inFlight, this`pendingTrailingRefresh, this`started
      ensures (View(c), pc) == Loop(old(View(c)))
      ensures OthersUnchanged(c)
    {
      if c in inFlight {
        return Waits(inFlight[c]);
      }
      if c !in pendingTrailingRefresh {
        return Returned;
      }
      pendingTrailingRefresh := pendingTrailingRefresh - {c};
      var fetch := (if c in started then started[c] else 0) + 1;
      started, inFlight := started[c := fetch], inFlight[c := fetch];
      pc := Owns(fetch);
    }

    /** A call, up to its first await. */
    method RefreshConversation(c: ConversationId) returns (pc: Pc)
      modifies this
      ensures View(c) == Step(old(View(c)), Call) && View(c).callers == old(View(c)).callers + [Caller(pc, old(View(c)).started)]
      ensures OthersUnchanged(c)
    {
      ghost var before := View(c);
      pendingTrailingRefresh := pendingTrailingRefresh + {c};
      pc := RunLoop(c);
      callers := callers[c := before.callers + [Caller(pc, before.started)]];
    }

    /** The fetch in flight settles; its error, if any, is caught inside. */
    ghost method FetchSettles(c: ConversationId)
      modifies this`settled
      ensures View(c) == Step(old(View(c)), Settle)
      ensures OthersUnchanged(c)
    {
      if View(c).settled < View(c).started {
        settled := settled[c := View(c).settled + 1];
      }
    }

    /** A caller resumes from its await: the owner drops the map entry, everybody loops. */
    method Resume(c: ConversationId, ghost caller: nat, pc: Pc) returns (next: Pc)
      requires caller < |View(c).callers| && View(c).callers[caller].pc == pc && Awake(View(c), pc)
      modifies this
      ensures View(c) == Step(old(View(c)), RefreshProtocol.Resume(caller)) && View(c).callers[caller].pc == next
      ensures OthersUnchanged(c)
    {
      ghost var before := View(c);
      if pc.Waits? {
        if c !in pendingTrailingRefresh && c !in inFlight {
          next := Returned;
        } else {
          next := RunLoop(c);
        }
      } else {
        inFlight := inFlight - {c};
        next := RunLoop(c);
      }
      callers := callers[c := before.callers[caller := before.callers[caller].(pc := next)]];
    }
  }
}
