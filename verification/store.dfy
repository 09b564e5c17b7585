/**
 * The relational store behind the bot, reduced to the tables and ORM calls
 * the core uses: `get_or_create` keyed by `telegram_id` or by
 * (participant, event), `create`, and saving a notification's `is_sent` flag.
 */
module Store {
  import opened Wrappers
  import opened Records
  import Text

  /** The `full_name` default: `f"{first_name} {last_name or ''}".strip()`. */
  function DefaultFullName(user: TelegramUser): string
  {
    var last := if user.lastName.Some? then user.lastName.value else "";
    Text.Strip(user.firstName + " " + last)
  }

  /** Index of the participant with `telegram_id == tid`, if any. */
  function FindParticipant(ps: seq<Participant>, tid: int): (r: Option<nat>)
    ensures r.Some? ==> r.value < |ps| && ps[r.value].telegramId == tid
    ensures r.None? <==> forall i :: 0 <= i < |ps| ==> ps[i].telegramId != tid
  {
    if ps == [] then None
    else if ps[|ps| - 1].telegramId == tid then Some(|ps| - 1)
    else FindParticipant(ps[..|ps| - 1], tid)
  }

  /**
   * `Participant.objects.get_or_create(telegram_id=tid, defaults={...})`: the
   * table after the call. The defaults are used only when the row is new.
   */
  function WithParticipant(ps: seq<Participant>, tid: int, username: string, fullName: string): seq<Participant>
  {
    if FindParticipant(ps, tid).Some? then ps else ps + [Participant(tid, username, fullName)]
  }

  ghost predicate UniqueParticipants(ps: seq<Participant>)
  {
    forall i, j :: 0 <= i < j < |ps| ==> ps[i].telegramId != ps[j].telegramId
  }

  /**
   * Get-or-create never modifies or removes an existing row, leaves exactly
   * one row for `tid`, and keeps `telegram_id` unique; it adds a row exactly
   * when the id is new, and otherwise leaves the table as it was.
   */
  lemma WithParticipantSpec(ps: seq<Participant>, tid: int, username: string, fullName: string)
    requires UniqueParticipants(ps)
    ensures var ps' := WithParticipant(ps, tid, username, fullName);
      && ps'[..|ps|] == ps
      && UniqueParticipants(ps')
      && |set i | 0 <= i < |ps'| && ps'[i].telegramId == tid| == 1
      && (FindParticipant(ps, tid).None? ==> ps' == ps + [Participant(tid, username, fullName)])
      && (FindParticipant(ps, tid).Some? ==> ps' == ps)
  {
    var ps' := WithParticipant(ps, tid, username, fullName);
    var k := if FindParticipant(ps, tid).Some? then FindParticipant(ps, tid).value else |ps|;
    assert k < |ps'| && ps'[k].telegramId == tid;
    assert (set i | 0 <= i < |ps'| && ps'[i].telegramId == tid) == {k};
  }

  /**
   * A second get-or-create with the same `telegram_id` (whatever its defaults)
   * changes nothing: a repeated action by one user never creates a second Participant.
   */
  lemma WithParticipantIdempotent(ps: seq<Participant>, tid: int, u1: string, f1: string, u2: string, f2: string)
    ensures WithParticipant(WithParticipant(ps, tid, u1, f1), tid, u2, f2) == WithParticipant(ps, tid, u1, f1)
  {
    var ps' := WithParticipant(ps, tid, u1, f1);
    if FindParticipant(ps, tid).None? {
      assert ps'[|ps'| - 1].telegramId == tid;
    }
  }

  /** Index of the subscription of participant `tid` to event `eventId`, if any. */
  function FindSubscription(subs: seq<Subscription>, tid: int, eventId: int): (r: Option<nat>)
    ensures r.Some? ==> r.value < |subs| && subs[r.value].participantTid == tid && subs[r.value].eventId == eventId
    ensures r.None? <==> forall i :: 0 <= i < |subs| ==> !(subs[i].participantTid == tid && subs[i].eventId == eventId)
  {
    if subs == [] then None
    else if subs[|subs| - 1].participantTid == tid && subs[|subs| - 1].eventId == eventId then Some(|subs| - 1)
    else FindSubscription(subs[..|subs| - 1], tid, eventId)
  }

  /**
   * `Subscription.objects.get_or_create(participant=..., event=..., defaults=all three True)`:
   * the table after the call.
   */
  function WithSubscription(subs: seq<Subscription>, tid: int, eventId: int): seq<Subscription>
  {
    if FindSubscription(subs, tid, eventId).Some? then subs
    else subs + [Subscription(tid, eventId, true, true, true)]
  }

  ghost predicate UniqueSubscriptions(subs: seq<Subscription>)
  {
    forall i, j :: 0 <= i < j < |subs| ==>
      !(subs[i].participantTid == subs[j].participantTid && subs[i].eventId == subs[j].eventId)
  }

  /**
   * Get-or-create of a subscription leaves every existing row as it was, keeps
   * (participant, event) unique, and afterwards the pair has a row. An existing
   * pair leaves the table as it was; a new pair adds one row with all three
   * toggles on.
   */
  lemma WithSubscriptionSpec(subs: seq<Subscription>, tid: int, eventId: int)
    requires UniqueSubscriptions(subs)
    ensures var subs' := WithSubscription(subs, tid, eventId);
      && subs'[..|subs|] == subs
      && UniqueSubscriptions(subs')
      && FindSubscription(subs', tid, eventId).Some?
      && (FindSubscription(subs, tid, eventId).None? ==>
            subs' == subs + [Subscription(tid, eventId, true, true, true)])
      && (FindSubscription(subs, tid, eventId).Some? ==> subs' == subs)
  {
    var subs' := WithSubscription(subs, tid, eventId);
    if FindSubscription(subs, tid, eventId).None? {
      assert subs'[|subs|].participantTid == tid && subs'[|subs|].eventId == eventId;
    }
  }

  /** The store: one sequence per table, in the store's default order. */
  class Store {
    var events: seq<Event>
    var speakers: seq<Speaker>
    var speeches: seq<Speech>
    var participants: seq<Participant>
    var questions: seq<Question>
    var subscriptions: seq<Subscription>
    var notifications: seq<Notification>
    var receipts: seq<UserNotification>

    /**
     * What the tables keep: `telegram_id` is unique (a declared constraint of
     * the participant table), (participant, event) is unique (not declared,
     * but every get-or-create keeps it, and the model assumes it of the
     * initial table), and notification ids follow the rows' positions.
     */
    ghost predicate Valid()
      reads this`participants, this`subscriptions, this`notifications
    {
      && UniqueParticipants(participants)
      && UniqueSubscriptions(subscriptions)
      && forall i :: 0 <= i < |notifications| ==> notifications[i].id == i + 1
    }

    constructor ()
      ensures Valid()
      ensures events == [] && speakers == [] && speeches == [] && participants == []
      ensures questions == [] && subscriptions == [] && notifications == [] && receipts == []
    {
      events, speakers, speeches := [], [], [];
      participants, questions, subscriptions := [], [], [];
      notifications, receipts := [], [];
    }

    method GetOrCreateParticipant(tid: int, username: string, fullName: string)
      requires Valid()
      modifies this`participants
      ensures Valid()
      ensures participants == WithParticipant(old(participants), tid, username, fullName)
    {
      WithParticipantSpec(participants, tid, username, fullName);
      if FindParticipant(participants, tid).None? {
        participants := participants + [Participant(tid, username, fullName)];
      }
    }

    method GetOrCreateSubscription(tid: int, eventId: int)
      requires Valid()
      modifies this`subscriptions
      ensures Valid()
      ensures subscriptions == WithSubscription(old(subscriptions), tid, eventId)
    {
      WithSubscriptionSpec(subscriptions, tid, eventId);
      if FindSubscription(subscriptions, tid, eventId).None? {
        subscriptions := subscriptions + [Subscription(tid, eventId, true, true, true)];
      }
    }

    method CreateQuestion(q: Question)
      modifies this`questions
      ensures questions == old(questions) + [q]
    {
      questions := questions + [q];
    }

    /** `Notification.objects.create(...)`: a new row, not yet sent, with the next id. */
    method CreateNotification(eventId: int, title: Heading, message: Body, kind: NotificationType)
      returns (n: Notification)
      requires Valid()
      modifies this`notifications
      ensures Valid()
      ensures n == Notification(|old(notifications)| + 1, eventId, title, message, kind, false)
      ensures notifications == old(notifications) + [n]
    {
      n := Notification(|notifications| + 1, eventId, title, message, kind, false);
      notifications := notifications + [n];
    }

    method CreateReceipt(tid: int, notificationId: nat)
      modifies this`receipts
      ensures receipts == old(receipts) + [UserNotification(tid, notificationId, false)]
    {
      receipts := receipts + [UserNotification(tid, notificationId, false)];
    }

    /** `notification.is_sent = True; notification.save()` for the row at position `k`. */
    method MarkSent(k: nat)
      requires Valid() && k < |notifications|
      modifies this`notifications
      ensures Valid()
      ensures notifications == old(notifications)[k := old(notifications)[k].(isSent := true)]
    {
      notifications := notifications[k := notifications[k].(isSent := true)];
    }
  }
}
