/**
 * The recipients of a new-event broadcast (tg_bot/notifications.py): every
 * participant is considered in turn; one is eligible when some subscription of
 * theirs wants new events, or when they have no subscription at all; an
 * eligible participant first gets a subscription to the new event (all
 * toggles on, unless one exists), and is then sent the message.
 *
 * The loop re-reads the subscription table for each participant while it is
 * adding rows to it; `NewEventsAreFor` shows that, with unique telegram ids,
 * this is the same as deciding everyone against the table as it was.
 */
module NewEvents {
  import opened Records
  import opened Fanout
  import Store

  /** Some subscription of `tid` has `notify_new_events` on. */
  predicate AnyNewEventsOn(subs: seq<Subscription>, tid: int)
  {
    exists i :: 0 <= i < |subs| && subs[i].participantTid == tid && subs[i].notifyNewEvents
  }

  /** `tid` has some subscription. */
  predicate AnySubscription(subs: seq<Subscription>, tid: int)
  {
    exists i :: 0 <= i < |subs| && subs[i].participantTid == tid
  }

  /** The eligibility test, with "no subscriptions at all" counting as yes. */
  predicate NewEventsEnabled(subs: seq<Subscription>, tid: int)
  {
    AnyNewEventsOn(subs, tid) || !AnySubscription(subs, tid)
  }

  /** A participant's turn of the loop: the table after it and the fan-out progress. */
  datatype Run = Run(subs: seq<Subscription>, progress: Progress)

  /**
   * One turn for participant `tid`. `subscriptionFails` holds the participants
   * whose subscription queries or get-or-create raise: they are skipped.
   */
  function Turn(r: Run, tid: int, eventId: int, body: Body, nid: nat,
                unreachable: set<int>, receiptFails: set<int>, subscriptionFails: set<int>): Run
  {
    if tid in subscriptionFails || !NewEventsEnabled(r.subs, tid) then r
    else Run(Store.WithSubscription(r.subs, tid, eventId),
             Deliver(r.progress, tid, body, nid, unreachable, receiptFails))
  }

  /** The whole loop over the participants, in table order. */
  function NewEventLoop(ps: seq<Participant>, subs: seq<Subscription>, eventId: int, body: Body, nid: nat,
                        unreachable: set<int>, receiptFails: set<int>, subscriptionFails: set<int>): Run
  {
    if ps == [] then Run(subs, Progress([], [], 0))
    else
      var before := NewEventLoop(ps[..|ps| - 1], subs, eventId, body, nid, unreachable, receiptFails, subscriptionFails);
      Turn(before, ps[|ps| - 1].telegramId, eventId, body, nid, unreachable, receiptFails, subscriptionFails)
  }

  /** Whether `tid` is the telegram id of one of `ps`. */
  predicate HasTid(ps: seq<Participant>, tid: int)
  {
    exists k :: 0 <= k < |ps| && ps[k].telegramId == tid
  }

  /**
   * The participants to notify, decided against the table as it was before
   * the loop: exactly the eligible participants that are not skipped.
   */
  function NewEventTargets(ps: seq<Participant>, subs: seq<Subscription>, subscriptionFails: set<int>): (r: seq<int>)
    ensures forall t :: t in r <==> HasTid(ps, t) && t !in subscriptionFails && NewEventsEnabled(subs, t)
  {
    if ps == [] then []
    else
      var init := NewEventTargets(ps[..|ps| - 1], subs, subscriptionFails);
      var tid := ps[|ps| - 1].telegramId;
      if tid !in subscriptionFails && NewEventsEnabled(subs, tid) then init + [tid] else init
  }

  /** Rows added for other participants do not change a participant's eligibility. */
  lemma EnabledIgnoresOthers(subs: seq<Subscription>, extra: seq<Subscription>, tid: int)
    requires forall j :: 0 <= j < |extra| ==> extra[j].participantTid != tid
    ensures NewEventsEnabled(subs + extra, tid) == NewEventsEnabled(subs, tid)
  {
    if AnyNewEventsOn(subs + extra, tid) {
      var i :| 0 <= i < |subs + extra| && (subs + extra)[i].participantTid == tid && (subs + extra)[i].notifyNewEvents;
      assert i < |subs|;
    }
    if AnySubscription(subs + extra, tid) {
      var i :| 0 <= i < |subs + extra| && (subs + extra)[i].participantTid == tid;
      assert i < |subs|;
    }
    if AnyNewEventsOn(subs, tid) {
      var i :| 0 <= i < |subs| && subs[i].participantTid == tid && subs[i].notifyNewEvents;
      assert (subs + extra)[i] == subs[i];
    }
    if AnySubscription(subs, tid) {
      var i :| 0 <= i < |subs| && subs[i].participantTid == tid;
      assert (subs + extra)[i] == subs[i];
    }
  }

  /**
   * The loop only appends to the table, and only rows for the participants it
   * has visited; each one it notified has a subscription to the event.
   */
  lemma {:induction false} LoopAppendsOnly(ps: seq<Participant>, subs: seq<Subscription>, eventId: int, body: Body,
                                           nid: nat, unreachable: set<int>, receiptFails: set<int>,
                                           subscriptionFails: set<int>)
    ensures var r := NewEventLoop(ps, subs, eventId, body, nid, unreachable, receiptFails, subscriptionFails);
      && |subs| <= |r.subs| && r.subs[..|subs|] == subs
      && forall j :: |subs| <= j < |r.subs| ==> HasTid(ps, r.subs[j].participantTid)
  {
    if ps != [] {
      var init := ps[..|ps| - 1];
      LoopAppendsOnly(init, subs, eventId, body, nid, unreachable, receiptFails, subscriptionFails);
      var before := NewEventLoop(init, subs, eventId, body, nid, unreachable, receiptFails, subscriptionFails);
      var tid := ps[|ps| - 1].telegramId;
      var after := NewEventLoop(ps, subs, eventId, body, nid, unreachable, receiptFails, subscriptionFails);
      forall j | |subs| <= j < |after.subs| ensures HasTid(ps, after.subs[j].participantTid) {
        if j < |before.subs| {
          assert after.subs[j] == before.subs[j] by {
            if after.subs != before.subs {
              assert after.subs == before.subs + [Subscription(tid, eventId, true, true, true)];
            }
          }
          var k :| 0 <= k < |init| && init[k].telegramId == after.subs[j].participantTid;
          assert ps[k] == init[k];
        } else {
          assert after.subs[j].participantTid == tid;
          assert ps[|ps| - 1].telegramId == tid;
        }
      }
      assert after.subs[..|subs|] == subs by {
        assert after.subs[..|before.subs|] == before.subs;
      }
    }
  }

  /**
   * With unique telegram ids, the loop notifies exactly the participants that
   * were eligible before it started (and are not skipped by a fault), in
   * table order: its progress is the fan-out over `NewEventTargets`.
   */
  lemma {:induction false} NewEventsAreFor(ps: seq<Participant>, subs: seq<Subscription>, eventId: int, body: Body,
                                           nid: nat, unreachable: set<int>, receiptFails: set<int>,
                                           subscriptionFails: set<int>)
    requires Store.UniqueParticipants(ps)
    ensures NewEventLoop(ps, subs, eventId, body, nid, unreachable, receiptFails, subscriptionFails).progress
         == FanOut(NewEventTargets(ps, subs, subscriptionFails), body, nid, unreachable, receiptFails)
  {
    if ps != [] {
      var init := ps[..|ps| - 1];
      var tid := ps[|ps| - 1].telegramId;
      NewEventsAreFor(init, subs, eventId, body, nid, unreachable, receiptFails, subscriptionFails);
      LoopAppendsOnly(init, subs, eventId, body, nid, unreachable, receiptFails, subscriptionFails);
      var before := NewEventLoop(init, subs, eventId, body, nid, unreachable, receiptFails, subscriptionFails);
      var extra := before.subs[|subs|..];
      assert before.subs == subs + extra;
      forall j | 0 <= j < |extra| ensures extra[j].participantTid != tid {
        assert HasTid(init, before.subs[|subs| + j].participantTid);
      }
      EnabledIgnoresOthers(subs, extra, tid);
      var targets := NewEventTargets(init, subs, subscriptionFails);
      if tid !in subscriptionFails && NewEventsEnabled(subs, tid) {
        assert (targets + [tid])[..|targets + [tid]| - 1] == targets;
      }
    }
  }

  /**
   * Every notified participant, whether or not the send then succeeded, ends
   * with a subscription to the event; rows that existed are kept as they were.
   */
  lemma {:induction false} TargetsAreSubscribed(ps: seq<Participant>, subs: seq<Subscription>, eventId: int, body: Body,
                                                nid: nat, unreachable: set<int>, receiptFails: set<int>,
                                                subscriptionFails: set<int>)
    requires Store.UniqueParticipants(ps) && Store.UniqueSubscriptions(subs)
    ensures var r := NewEventLoop(ps, subs, eventId, body, nid, unreachable, receiptFails, subscriptionFails);
      && Store.UniqueSubscriptions(r.subs)
      && |subs| <= |r.subs| && r.subs[..|subs|] == subs
      && forall t :: t in NewEventTargets(ps, subs, subscriptionFails) ==> Store.FindSubscription(r.subs, t, eventId).Some?
  {
    LoopAppendsOnly(ps, subs, eventId, body, nid, unreachable, receiptFails, subscriptionFails);
    if ps != [] {
      var init := ps[..|ps| - 1];
      var tid := ps[|ps| - 1].telegramId;
      TargetsAreSubscribed(init, subs, eventId, body, nid, unreachable, receiptFails, subscriptionFails);
      NewEventsAreFor(init, subs, eventId, body, nid, unreachable, receiptFails, subscriptionFails);
      LoopAppendsOnly(init, subs, eventId, body, nid, unreachable, receiptFails, subscriptionFails);
      var before := NewEventLoop(init, subs, eventId, body, nid, unreachable, receiptFails, subscriptionFails);
      var extra := before.subs[|subs|..];
      assert before.subs == subs + extra;
      forall j | 0 <= j < |extra| ensures extra[j].participantTid != tid {
        assert HasTid(init, before.subs[|subs| + j].participantTid);
      }
      EnabledIgnoresOthers(subs, extra, tid);
      Store.WithSubscriptionSpec(before.subs, tid, eventId);
      var after := NewEventLoop(ps, subs, eventId, body, nid, unreachable, receiptFails, subscriptionFails);
      forall t | t in NewEventTargets(ps, subs, subscriptionFails)
        ensures Store.FindSubscription(after.subs, t, eventId).Some?
      {
        if t != tid || !(tid !in subscriptionFails && NewEventsEnabled(subs, tid)) {
          assert t in NewEventTargets(init, subs, subscriptionFails);
          var i := Store.FindSubscription(before.subs, t, eventId).value;
          assert after.subs[..|before.subs|] == before.subs;
          assert after.subs[i] == before.subs[i];
        }
      }
    }
  }
}
