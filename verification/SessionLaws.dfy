/** A session resolution is the classification of the stored bindings, whatever the hot cache did meanwhile. */
module SessionLaws {
  import opened Options
  import opened Text
  import opened HotCache
  import opened TurnCache
  import TurnCacheLaws
  import SessionResolution
  import TurnStore

  /** The account last stored for each of the ids. */
  function Bound(events: seq<Event>, ids: seq<string>): map<string, string> {
    map id | id in ids && Last(events, id).Some? :: Last(events, id).value.account
  }

  lemma {:induction false} RunPrefix(c: Config, events: seq<Event>, s: State, n: nat) returns (p: State)
    requires Run(c, events, s) && n <= |events|
    ensures Run(c, events[..n], p) && p.clock <= s.clock
  {
    hide Next;
    if n == |events| {
      assert events[..n] == events;
      p := s;
    } else {
      var front, e := events[..|events| - 1], events[|events| - 1];
      var q :| Run(c, front, q) && Next(c, q, e, s);
      p := RunPrefix(c, front, q, n);
      assert front[..n] == events[..n];
      ClockMoves(c, q, e, s);
    }
  }

  lemma ClockMoves(c: Config, s: State, e: Event, s': State)
    requires Next(c, s, e, s')
    ensures s.clock <= s'.clock && (e.Lookup? ==> e.tableTime <= s'.clock)
  {
  }

  lemma {:induction false} LookupsKeepLast(before: seq<Event>, lookups: seq<Event>, key: string)
    requires forall e | e in lookups :: e.Lookup?
    ensures Last(before + lookups, key) == Last(before, key)
  {
    hide Last;
    if lookups == [] {
      assert before + lookups == before;
    } else {
      var front, e := lookups[..|lookups| - 1], lookups[|lookups| - 1];
      assert e in lookups;
      LookupsKeepLast(before, front, key);
      assert before + lookups == (before + front) + [e];
      TurnCacheLaws.LastSnoc(before + front, e, key);
    }
  }

  /** One of the lookups, if the binding of its id is unexpired and can be read, or was never stored. */
  lemma LookupAnswer(c: Config, before: seq<Event>, events: seq<Event>, s: State, ids: seq<string>,
                     readable: string -> bool, owners: seq<Option<string>>, i: nat)
    requires c.enabled && Run(c, events, s) && WritesSucceed(events)
    requires TurnStore.Lookups(events, before, ids, readable, owners) && i < |owners| && TrimSpace(ids[i]) == ids[i]
    requires Last(before, ids[i]).Some? ==> readable(ids[i]) && Expiry(c, Last(before, ids[i]).value) >= Unix(s.clock)
    ensures owners[i] == if Last(before, ids[i]).Some? then Some(Last(before, ids[i]).value.account) else None
  {
    hide Run, Last, TrimSpace, Expiry;
    var n := |before| + i;
    var e := events[n];
    assert TurnStore.Answers(e, ids[i], readable(ids[i]), owners[i]);
    var p := RunPrefix(c, events, s, n + 1);
    assert events[..n + 1] == events[..n] + [e];
    assert forall x | x in events[..n + 1] :: x in events;
    TurnCacheLaws.LookupFindsLast(c, events[..n], e, p);
    var lookups := events[|before|..n];
    assert events[..n] == before + lookups;
    forall x | x in lookups
      ensures x.Lookup?
    {
      var j :| 0 <= j < |lookups| && lookups[j] == x;
      assert TurnStore.Answers(events[|before| + j], ids[j], readable(ids[j]), owners[j]);
    }
    LookupsKeepLast(before, lookups, ids[i]);
    LastTime(c, events[..n], e, p);
    assert Unix(e.tableTime) <= Unix(s.clock);
    if Last(before, ids[i]).Some? {
      TurnCacheLaws.LivesIs(c, Last(before, ids[i]).value, e.tableTime);
    }
  }

  lemma LastTime(c: Config, events: seq<Event>, e: Event, s: State)
    requires Run(c, events + [e], s) && e.Lookup?
    ensures e.tableTime <= s.clock
  {
    hide Next;
    assert (events + [e])[..|events|] == events;
    var p :| Run(c, events, p) && Next(c, p, e, s);
    ClockMoves(c, p, e, s);
  }

  /** When every id's binding is absent, or unexpired and readable, the resolution of the session is exactly the classification of the
      bindings, and so the same for every order and repetition of the ids and every state of the hot cache. */
  lemma SessionFollowsBindings(c: Config, before: seq<Event>, events: seq<Event>, s: State, callIds: seq<string>,
                               readable: string -> bool, owners: seq<Option<string>>, r: SessionResolution.Resolution)
    requires c.enabled && Run(c, events, s) && WritesSucceed(events)
    requires TurnStore.Lookups(events, before, UniqueTrimmed(callIds), readable, owners) && |owners| == |UniqueTrimmed(callIds)|
    requires SessionResolution.Classifies(owners, r)
    requires forall id | id in UniqueTrimmed(callIds) && Last(before, id).Some? ::
               readable(id) && Expiry(c, Last(before, id).value) >= Unix(s.clock)
    ensures owners == SessionResolution.Answers(UniqueTrimmed(callIds), Bound(before, UniqueTrimmed(callIds)))
    ensures SessionResolution.Classifies(SessionResolution.Answers(UniqueTrimmed(callIds), Bound(before, UniqueTrimmed(callIds))), r)
  {
    hide *;
    var ids := UniqueTrimmed(callIds);
    forall i | 0 <= i < |ids|
      ensures owners[i] == if Last(before, ids[i]).Some? then Some(Last(before, ids[i]).value.account) else None
    {
      assert ids[i] in ids;
      LookupAnswer(c, before, events, s, ids, readable, owners, i);
    }
    AnswersAre(before, ids, owners);
  }

  lemma AnswersAre(before: seq<Event>, ids: seq<string>, owners: seq<Option<string>>)
    requires |owners| == |ids|
    requires forall i | 0 <= i < |ids| ::
               owners[i] == if Last(before, ids[i]).Some? then Some(Last(before, ids[i]).value.account) else None
    ensures owners == SessionResolution.Answers(ids, Bound(before, ids))
  {
    hide Last;
  }
}
