/**
 * The notification service (tg_bot/notifications.py): three broadcasts that
 * each pick their recipients, create one Notification, try one send per
 * recipient, write a receipt after each successful send, and finally mark
 * the Notification sent, returning the number of receipts written.
 *
 * The delivery channel is a `Bot` whose sends to a fixed set of chat ids
 * raise. Per-recipient write failures are sets of telegram ids; an
 * `OuterFault` stands for an exception outside the per-recipient `try`.
 */
module Notifications {
  import opened Wrappers
  import opened Records
  import opened Fanout
  import opened NewEvents
  import Store

  /** The delivery channel: `send_message` raises for the chat ids in `unreachable`. */
  class Bot {
    const unreachable: set<int>
    var outbox: seq<Outgoing>

    constructor (unreachable: set<int>)
      ensures this.unreachable == unreachable && outbox == []
    {
      this.unreachable := unreachable;
      outbox := [];
    }

    /** `bot.send_message`: `ok` is false exactly when the send raises. */
    method SendMessage(chatId: int, body: Body) returns (ok: bool)
      modifies this`outbox
      ensures ok <==> chatId !in unreachable
      ensures outbox == old(outbox) + (if ok then [Outgoing(chatId, body)] else [])
    {
      ok := chatId !in unreachable;
      if ok {
        outbox := outbox + [Outgoing(chatId, body)];
      }
    }
  }

  /**
   * Where an exception outside the per-recipient `try` is raised: before the
   * Notification exists (a query run before it, or the create itself); when
   * the `for` loop first evaluates the lazy recipients query, after the
   * Notification exists and before any send; or when saving `is_sent`.
   * Every one of them makes the method return 0.
   */
  datatype OuterFault = NoOuterFault | FailsBeforeCreate | FailsOnQuery | FailsOnSave

  /** The reminder's title and message: about the speech when one is given, else about the event. */
  function ReminderContent(event: Event, speech: Option<Speech>): (Heading, Body)
  {
    if speech.Some? then
      (ReminderHeading(speech.value.title),
       SpeechReminder(speech.value.speaker.name, speech.value.title, speech.value.startTime))
    else
      (ReminderHeading(event.title), EventReminder(event.title, event.date))
  }

  class NotificationService {
    const bot: Bot

    constructor (bot: Bot)
      ensures this.bot == bot
    {
      this.bot := bot;
    }

    /**
     * The loop shared by the three broadcasts: for each recipient, one send,
     * then a receipt unless writing it raises. It does what `FanOut` says.
     */
    method FanOutLoop(db: Store.Store, tids: seq<int>, body: Body, nid: nat, receiptFails: set<int>)
      returns (count: nat)
      modifies db`receipts, bot`outbox
      ensures var p := FanOut(tids, body, nid, bot.unreachable, receiptFails);
        && bot.outbox == old(bot.outbox) + p.sends
        && db.receipts == old(db.receipts) + p.receipts
        && count == p.count
    {
      count := 0;
      for i := 0 to |tids|
        invariant var p := FanOut(tids[..i], body, nid, bot.unreachable, receiptFails);
          && bot.outbox == old(bot.outbox) + p.sends
          && db.receipts == old(db.receipts) + p.receipts
          && count == p.count
      {
        assert tids[..i + 1][..i] == tids[..i];
        var ok := bot.SendMessage(tids[i], body);
        if ok && tids[i] !in receiptFails {
          db.CreateReceipt(tids[i], nid);
          count := count + 1;
        }
      }
      assert tids[..|tids|] == tids;
    }

    /**
     * `send_program_change_notification`: no subscriber means no Notification
     * and 0; otherwise one Notification, one send per subscriber, a receipt per
     * success, and the count of receipts.
     */
    method SendProgramChangeNotification(db: Store.Store, event: Event, changeDescription: string,
                                         receiptFails: set<int>, fault: OuterFault)
      returns (sent: nat)
      requires db.Valid()
      modifies db`notifications, db`receipts, bot`outbox
      ensures db.Valid()
      ensures var tids := Recipients(db.subscriptions, event.id, ProgramChanges);
        var nid := |old(db.notifications)| + 1;
        var p := FanOut(tids, ProgramChangeMessage(event.title, changeDescription), nid, bot.unreachable, receiptFails);
        if fault == FailsBeforeCreate || tids == [] then
          && sent == 0
          && db.notifications == old(db.notifications) && db.receipts == old(db.receipts)
          && bot.outbox == old(bot.outbox)
        else if fault == FailsOnQuery then
          && sent == 0
          && db.notifications == old(db.notifications)
               + [Notification(nid, event.id, ProgramChangeHeading(event.title), Plain(changeDescription),
                               ProgramChange, false)]
          && db.receipts == old(db.receipts) && bot.outbox == old(bot.outbox)
        else
          && db.notifications == old(db.notifications)
               + [Notification(nid, event.id, ProgramChangeHeading(event.title), Plain(changeDescription),
                               ProgramChange, fault == NoOuterFault)]
          && db.receipts == old(db.receipts) + p.receipts
          && bot.outbox == old(bot.outbox) + p.sends
          && sent == (if fault == NoOuterFault then p.count else 0)
    {
      if fault == FailsBeforeCreate {
        return 0;
      }
      var tids := Recipients(db.subscriptions, event.id, ProgramChanges);
      if tids == [] {
        return 0;
      }
      var n := db.CreateNotification(event.id, ProgramChangeHeading(event.title), Plain(changeDescription), ProgramChange);
      if fault == FailsOnQuery {
        return 0;
      }
      var count := FanOutLoop(db, tids, ProgramChangeMessage(event.title, changeDescription), n.id, receiptFails);
      if fault == FailsOnSave {
        return 0;
      }
      db.MarkSent(|db.notifications| - 1);
      return count;
    }

    /**
     * The participant loop of `send_new_event_notification`: for each
     * participant, in table order, as `NewEventLoop` says.
     */
    method VisitParticipants(db: Store.Store, eventId: int, body: Body, nid: nat,
                             receiptFails: set<int>, subscriptionFails: set<int>)
      returns (count: nat)
      requires db.Valid()
      modifies db`receipts, db`subscriptions, bot`outbox
      ensures db.Valid()
      ensures var run := NewEventLoop(db.participants, old(db.subscriptions), eventId, body, nid,
                                      bot.unreachable, receiptFails, subscriptionFails);
        && db.subscriptions == run.subs
        && bot.outbox == old(bot.outbox) + run.progress.sends
        && db.receipts == old(db.receipts) + run.progress.receipts
        && count == run.progress.count
    {
      var ps := db.participants;
      count := 0;
      for i := 0 to |ps|
        invariant var run := NewEventLoop(ps[..i], old(db.subscriptions), eventId, body, nid,
                                          bot.unreachable, receiptFails, subscriptionFails);
          && db.subscriptions == run.subs
          && bot.outbox == old(bot.outbox) + run.progress.sends
          && db.receipts == old(db.receipts) + run.progress.receipts
          && count == run.progress.count
        invariant db.Valid()
      {
        assert ps[..i + 1][..i] == ps[..i];
        var tid := ps[i].telegramId;
        if tid in subscriptionFails {
          continue;
        }
        var enabled := AnyNewEventsOn(db.subscriptions, tid);
        if !AnySubscription(db.subscriptions, tid) {
          enabled := true;
        }
        if !enabled {
          continue;
        }
        db.GetOrCreateSubscription(tid, eventId);
        var ok := bot.SendMessage(tid, body);
        if ok && tid !in receiptFails {
          db.CreateReceipt(tid, nid);
          count := count + 1;
        }
      }
      assert ps[..|ps|] == ps;
    }

    /**
     * `send_new_event_notification`: the Notification is created whoever is
     * eligible; the participants are then visited as `NewEventLoop` says.
     */
    method SendNewEventNotification(db: Store.Store, event: Event, receiptFails: set<int>,
                                    subscriptionFails: set<int>, fault: OuterFault)
      returns (sent: nat)
      requires db.Valid()
      modifies db`notifications, db`receipts, db`subscriptions, bot`outbox
      ensures db.Valid()
      ensures var nid := |old(db.notifications)| + 1;
        var run := NewEventLoop(db.participants, old(db.subscriptions), event.id,
                                NewEventMessage(event.title, event.description, event.date), nid,
                                bot.unreachable, receiptFails, subscriptionFails);
        if fault == FailsBeforeCreate then
          && sent == 0
          && db.notifications == old(db.notifications) && db.receipts == old(db.receipts)
          && db.subscriptions == old(db.subscriptions) && bot.outbox == old(bot.outbox)
        else if fault == FailsOnQuery then
          && sent == 0
          && db.notifications == old(db.notifications)
               + [Notification(nid, event.id, NewEventHeading(event.title), Plain(event.description),
                               NewEvent, false)]
          && db.receipts == old(db.receipts)
          && db.subscriptions == old(db.subscriptions) && bot.outbox == old(bot.outbox)
        else
          && db.notifications == old(db.notifications)
               + [Notification(nid, event.id, NewEventHeading(event.title), Plain(event.description),
                               NewEvent, fault == NoOuterFault)]
          && db.subscriptions == run.subs
          && db.receipts == old(db.receipts) + run.progress.receipts
          && bot.outbox == old(bot.outbox) + run.progress.sends
          && sent == (if fault == NoOuterFault then run.progress.count else 0)
      ensures fault == NoOuterFault || fault == FailsOnSave ==>
        var nid := |old(db.notifications)| + 1;
        var targets := NewEventTargets(db.participants, old(db.subscriptions), subscriptionFails);
        var p := FanOut(targets, NewEventMessage(event.title, event.description, event.date), nid,
                        bot.unreachable, receiptFails);
        && bot.outbox == old(bot.outbox) + p.sends
        && db.receipts == old(db.receipts) + p.receipts
        && (forall t :: t in targets ==> Store.FindSubscription(db.subscriptions, t, event.id).Some?)
    {
      if fault == FailsBeforeCreate {
        return 0;
      }
      var subs0 := db.subscriptions;
      var n := db.CreateNotification(event.id, NewEventHeading(event.title), Plain(event.description), NewEvent);
      if fault == FailsOnQuery {
        return 0;
      }
      var body := NewEventMessage(event.title, event.description, event.date);
      var count := VisitParticipants(db, event.id, body, n.id, receiptFails, subscriptionFails);
      NewEventsAreFor(db.participants, subs0, event.id, body, n.id, bot.unreachable, receiptFails, subscriptionFails);
      TargetsAreSubscribed(db.participants, subs0, event.id, body, n.id, bot.unreachable, receiptFails, subscriptionFails);
      if fault == FailsOnSave {
        return 0;
      }
      db.MarkSent(|db.notifications| - 1);
      return count;
    }

    /**
     * `send_reminder_notification`: the Notification is created even with no
     * subscriber; title and message depend on whether a speech is given.
     */
    method SendReminderNotification(db: Store.Store, event: Event, speech: Option<Speech>,
                                    receiptFails: set<int>, fault: OuterFault)
      returns (sent: nat)
      requires db.Valid()
      modifies db`notifications, db`receipts, bot`outbox
      ensures db.Valid()
      ensures var tids := Recipients(db.subscriptions, event.id, Reminders);
        var nid := |old(db.notifications)| + 1;
        var (title, message) := ReminderContent(event, speech);
        var p := FanOut(tids, message, nid, bot.unreachable, receiptFails);
        if fault == FailsBeforeCreate then
          && sent == 0
          && db.notifications == old(db.notifications) && db.receipts == old(db.receipts)
          && bot.outbox == old(bot.outbox)
        else if fault == FailsOnQuery then
          && sent == 0
          && db.notifications == old(db.notifications) + [Notification(nid, event.id, title, message, Reminder, false)]
          && db.receipts == old(db.receipts) && bot.outbox == old(bot.outbox)
        else
          && db.notifications == old(db.notifications)
               + [Notification(nid, event.id, title, message, Reminder, fault == NoOuterFault)]
          && db.receipts == old(db.receipts) + p.receipts
          && bot.outbox == old(bot.outbox) + p.sends
          && sent == (if fault == NoOuterFault then p.count else 0)
    {
      if fault == FailsBeforeCreate {
        return 0;
      }
      var tids := Recipients(db.subscriptions, event.id, Reminders);
      var (title, message) := ReminderContent(event, speech);
      var n := db.CreateNotification(event.id, title, message, Reminder);
      if fault == FailsOnQuery {
        return 0;
      }
      var count := FanOutLoop(db, tids, message, n.id, receiptFails);
      if fault == FailsOnSave {
        return 0;
      }
      db.MarkSent(|db.notifications| - 1);
      return count;
    }
  }
}
