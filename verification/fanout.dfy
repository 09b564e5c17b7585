/**
 * The fan-out loop shared by the three broadcasts of tg_bot/notifications.py:
 * one send per recipient, in order; a send that raises is logged and skipped;
 * a successful send is followed by a delivery receipt, and only a recipient
 * whose receipt is written is counted.
 */
module Fanout {
  import opened Records
  import Store

  /** A message handed to the delivery channel. */
  datatype Outgoing = Outgoing(chatId: int, body: Body)

  /** Which subscription toggle selects the recipients. */
  datatype Toggle = ProgramChanges | Reminders

  predicate Wants(s: Subscription, toggle: Toggle)
  {
    match toggle
    case ProgramChanges => s.notifyProgramChanges
    case Reminders => s.notifyReminders
  }

  /**
   * `Subscription.objects.filter(event=event, notify_...=True)`: the telegram
   * ids of the subscribers, in table order.
   */
  function Recipients(subs: seq<Subscription>, eventId: int, toggle: Toggle): (r: seq<int>)
    ensures |r| <= |subs|
    ensures forall t :: t in r <==>
      exists i :: 0 <= i < |subs| && subs[i].participantTid == t && subs[i].eventId == eventId && Wants(subs[i], toggle)
  {
    if subs == [] then []
    else
      var init := Recipients(subs[..|subs| - 1], eventId, toggle);
      var s := subs[|subs| - 1];
      assert forall i :: 0 <= i < |subs| - 1 ==> subs[..|subs| - 1][i] == subs[i];
      if s.eventId == eventId && Wants(s, toggle) then init + [s.participantTid] else init
  }

  predicate NoRepeats(r: seq<int>)
  {
    forall i, j :: 0 <= i < j < |r| ==> r[i] != r[j]
  }

  /**
   * Each matching row yields one recipient, so a participant is listed once
   * per subscription row: with (participant, event) unique, nobody is listed
   * twice, and a duplicated row would make the same chat receive the message twice.
   */
  lemma {:induction false} RecipientsDistinct(subs: seq<Subscription>, eventId: int, toggle: Toggle)
    requires Store.UniqueSubscriptions(subs)
    ensures NoRepeats(Recipients(subs, eventId, toggle))
  {
    if subs != [] {
      var init := subs[..|subs| - 1];
      var s := subs[|subs| - 1];
      RecipientsDistinct(init, eventId, toggle);
      var r0 := Recipients(init, eventId, toggle);
      if s.eventId == eventId && Wants(s, toggle) && s.participantTid in r0 {
        assert false;
      }
      var r := Recipients(subs, eventId, toggle);
      assert r == if s.eventId == eventId && Wants(s, toggle) then r0 + [s.participantTid] else r0;
      forall i, j | 0 <= i < j < |r| ensures r[i] != r[j] {
        if j < |r0| {
          assert r[i] == r0[i] && r[j] == r0[j] && r0[i] != r0[j];
        } else {
          assert r[i] == r0[i] && r0[i] in r0 && r[j] == s.participantTid;
        }
      }
    }
  }

  /** Two rows for the same participant and event send to that chat twice. */
  lemma DuplicateRowSendsTwice(s: Subscription, toggle: Toggle)
    requires Wants(s, toggle)
    ensures Recipients([s, s], s.eventId, toggle) == [s.participantTid, s.participantTid]
  {
    assert [s, s][..1] == [s];
    assert [s][..0] == [];
  }

  /** What a fan-out has done so far: the sends that went out, the receipts written, the count. */
  datatype Progress = Progress(sends: seq<Outgoing>, receipts: seq<UserNotification>, count: nat)

  /** A recipient whose send and receipt both succeed. */
  predicate Delivered(t: int, unreachable: set<int>, receiptFails: set<int>)
  {
    t !in unreachable && t !in receiptFails
  }

  /** One iteration of the loop body for recipient `t`. */
  function Deliver(p: Progress, t: int, body: Body, nid: nat, unreachable: set<int>, receiptFails: set<int>): Progress
  {
    if t in unreachable then p
    else if t in receiptFails then p.(sends := p.sends + [Outgoing(t, body)])
    else Progress(p.sends + [Outgoing(t, body)], p.receipts + [UserNotification(t, nid, false)], p.count + 1)
  }

  /** The whole loop over `tids`, in order. */
  function FanOut(tids: seq<int>, body: Body, nid: nat, unreachable: set<int>, receiptFails: set<int>): Progress
  {
    if tids == [] then Progress([], [], 0)
    else Deliver(FanOut(tids[..|tids| - 1], body, nid, unreachable, receiptFails), tids[|tids| - 1],
                 body, nid, unreachable, receiptFails)
  }

  /**
   * The count is the number of receipts, and there is at most one send per
   * recipient; every receipt is unread, for this notification, and for a
   * delivered recipient; every send went to a reachable recipient.
   */
  lemma {:induction false} FanOutSpec(tids: seq<int>, body: Body, nid: nat, unreachable: set<int>, receiptFails: set<int>)
    ensures var p := FanOut(tids, body, nid, unreachable, receiptFails);
      && p.count == |p.receipts| <= |p.sends| <= |tids|
      && (forall k :: 0 <= k < |p.receipts| ==>
            && p.receipts[k].participantTid in tids
            && p.receipts[k].notificationId == nid && !p.receipts[k].isRead
            && Delivered(p.receipts[k].participantTid, unreachable, receiptFails))
      && (forall k :: 0 <= k < |p.sends| ==>
            p.sends[k].chatId in tids && p.sends[k].chatId !in unreachable && p.sends[k].body == body)
  {
    if tids != [] {
      var init := tids[..|tids| - 1];
      FanOutSpec(init, body, nid, unreachable, receiptFails);
      assert forall t :: t in init ==> t in tids;
    }
  }

  /** The loop over `a + b` is the loop over `a` followed by the loop over `b`. */
  lemma {:induction false} FanOutAppend(a: seq<int>, b: seq<int>, body: Body, nid: nat,
                                        unreachable: set<int>, receiptFails: set<int>)
    ensures var pa := FanOut(a, body, nid, unreachable, receiptFails);
      var pb := FanOut(b, body, nid, unreachable, receiptFails);
      FanOut(a + b, body, nid, unreachable, receiptFails)
        == Progress(pa.sends + pb.sends, pa.receipts + pb.receipts, pa.count + pb.count)
  {
    if b == [] {
      assert a + b == a;
    } else {
      var b', t := b[..|b| - 1], b[|b| - 1];
      FanOutAppend(a, b', body, nid, unreachable, receiptFails);
      assert (a + b)[..|a + b| - 1] == a + b';
      assert (a + b)[|a + b| - 1] == t;
    }
  }

  /**
   * A failed send is isolated: the loop over a recipient list with one
   * unreachable recipient does for everyone else exactly what the loop
   * without that recipient does.
   */
  lemma FailedSendIsolated(a: seq<int>, t: int, b: seq<int>, body: Body, nid: nat,
                           unreachable: set<int>, receiptFails: set<int>)
    requires t in unreachable
    ensures FanOut(a + [t] + b, body, nid, unreachable, receiptFails)
         == FanOut(a + b, body, nid, unreachable, receiptFails)
  {
    FanOutAppend(a + [t], b, body, nid, unreachable, receiptFails);
    FanOutAppend(a, [t], body, nid, unreachable, receiptFails);
    FanOutAppend(a, b, body, nid, unreachable, receiptFails);
    assert [t][..0] == [];
  }

  /** The receipts a fully successful fan-out writes: one per recipient, in order. */
  function ReceiptsFor(tids: seq<int>, nid: nat): seq<UserNotification>
  {
    seq(|tids|, k requires 0 <= k < |tids| => UserNotification(tids[k], nid, false))
  }

  /** When every recipient is delivered, everyone gets one send and one receipt, and all are counted. */
  lemma {:induction false} AllDelivered(tids: seq<int>, body: Body, nid: nat,
                                        unreachable: set<int>, receiptFails: set<int>)
    requires forall k :: 0 <= k < |tids| ==> Delivered(tids[k], unreachable, receiptFails)
    ensures var p := FanOut(tids, body, nid, unreachable, receiptFails);
      && p.count == |tids|
      && p.receipts == ReceiptsFor(tids, nid)
      && p.sends == seq(|tids|, k requires 0 <= k < |tids| => Outgoing(tids[k], body))
  {
    if tids != [] {
      var init := tids[..|tids| - 1];
      AllDelivered(init, body, nid, unreachable, receiptFails);
    }
  }

  /**
   * Among recipients who are otherwise all delivered, one unreachable
   * recipient costs exactly one: five subscribers with the third failing
   * count four, and get four receipts.
   */
  lemma OneFailureCostsOne(a: seq<int>, t: int, b: seq<int>, body: Body, nid: nat,
                           unreachable: set<int>, receiptFails: set<int>)
    requires t in unreachable
    requires forall k :: 0 <= k < |a| ==> Delivered(a[k], unreachable, receiptFails)
    requires forall k :: 0 <= k < |b| ==> Delivered(b[k], unreachable, receiptFails)
    ensures var p := FanOut(a + [t] + b, body, nid, unreachable, receiptFails);
      p.count == |a| + |b| && p.receipts == ReceiptsFor(a + b, nid)
  {
    FailedSendIsolated(a, t, b, body, nid, unreachable, receiptFails);
    AllDelivered(a + b, body, nid, unreachable, receiptFails);
  }
}
