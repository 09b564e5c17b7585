/**
 * The main menu (tg_bot/common.py): the reply keyboard, the speaker lookup
 * behind it, and `menu_router`, which offers every text message to the open
 * flows in a fixed priority order before reading it as a menu label.
 */
module Menu {
  import opened Wrappers
  import opened Records
  import opened Session
  import Store
  import Talks
  import Networking
  import Donations

  const AskQuestionLabel: string := "Вопрос спикеру"
  const ScheduleLabel: string := "Программа"
  const NetworkingLabel: string := "Нетворкинг"
  const DonationLabel: string := "Поддержать митап"
  const SpeakerQuestionsLabel: string := "Мои вопросы"

  /** What a message means once no flow has taken it. */
  datatype MenuAction =
    | AskQuestionAction
    | ScheduleAction
    | NetworkingAction
    | DonationAction
    | SpeakerQuestionsAction
    | NotUnderstoodAction

  /** The label table of `menu_router`: exact matches only. */
  function LabelAction(text: string): (a: MenuAction)
    ensures a == NotUnderstoodAction <==>
      text !in {AskQuestionLabel, ScheduleLabel, NetworkingLabel, DonationLabel, SpeakerQuestionsLabel}
  {
    if text == AskQuestionLabel then AskQuestionAction
    else if text == ScheduleLabel then ScheduleAction
    else if text == NetworkingLabel then NetworkingAction
    else if text == DonationLabel then DonationAction
    else if text == SpeakerQuestionsLabel then SpeakerQuestionsAction
    else NotUnderstoodAction
  }

  /** The five labels name five different actions. */
  lemma LabelsAreDistinct()
    ensures LabelAction(AskQuestionLabel) == AskQuestionAction
    ensures LabelAction(ScheduleLabel) == ScheduleAction
    ensures LabelAction(NetworkingLabel) == NetworkingAction
    ensures LabelAction(DonationLabel) == DonationAction
    ensures LabelAction(SpeakerQuestionsLabel) == SpeakerQuestionsAction
  {
  }

  /** `get_main_menu_keyboard`'s rows of button labels. */
  function MainMenuKeyboard(speaker: bool): seq<seq<string>>
  {
    if speaker then
      [[AskQuestionLabel, ScheduleLabel], [NetworkingLabel, SpeakerQuestionsLabel], [DonationLabel]]
    else
      [[AskQuestionLabel, ScheduleLabel], [NetworkingLabel, DonationLabel]]
  }

  /** All buttons, row by row. */
  function Buttons(rows: seq<seq<string>>): seq<string>
  {
    if rows == [] then [] else rows[0] + Buttons(rows[1..])
  }

  /**
   * Speakers get three rows and five buttons, one of them "Мои вопросы";
   * everyone else gets two rows and four buttons without it. Every button
   * is a label the router understands.
   */
  lemma KeyboardLayout(speaker: bool)
    ensures var rows := MainMenuKeyboard(speaker);
      && |rows| == (if speaker then 3 else 2)
      && |Buttons(rows)| == (if speaker then 5 else 4)
      && (SpeakerQuestionsLabel in Buttons(rows) <==> speaker)
      && forall b :: b in Buttons(rows) ==> LabelAction(b) != NotUnderstoodAction
  {
    var rows := MainMenuKeyboard(speaker);
    if speaker {
      assert Buttons(rows) == rows[0] + (rows[1] + (rows[2] + Buttons(rows[3..])));
      assert Buttons(rows) == [AskQuestionLabel, ScheduleLabel, NetworkingLabel, SpeakerQuestionsLabel, DonationLabel];
    } else {
      assert Buttons(rows) == rows[0] + (rows[1] + Buttons(rows[2..]));
      assert Buttons(rows) == [AskQuestionLabel, ScheduleLabel, NetworkingLabel, DonationLabel];
      assert SpeakerQuestionsLabel != AskQuestionLabel && SpeakerQuestionsLabel != ScheduleLabel;
      assert SpeakerQuestionsLabel != NetworkingLabel && SpeakerQuestionsLabel != DonationLabel;
    }
  }

  /** `is_speaker`: some speaker has this telegram id; a failing lookup counts as no. */
  predicate IsSpeaker(telegramId: int, speakers: seq<Speaker>, lookupFails: bool)
  {
    !lookupFails && exists i :: 0 <= i < |speakers| && speakers[i].telegramId == Some(telegramId)
  }

  /** The keyboard for a sender: a missing or zero telegram id never gets the speaker layout. */
  function KeyboardFor(telegramId: Option<int>, speakers: seq<Speaker>, lookupFails: bool): (rows: seq<seq<string>>)
    ensures SpeakerQuestionsLabel in Buttons(rows) <==>
      telegramId.Some? && telegramId.value != 0 && IsSpeaker(telegramId.value, speakers, lookupFails)
  {
    var speaker := telegramId.Some? && telegramId.value != 0 && IsSpeaker(telegramId.value, speakers, lookupFails);
    KeyboardLayout(speaker);
    MainMenuKeyboard(speaker)
  }

  /** A speaker with a non-zero telegram id gets "Мои вопросы" whenever the lookup succeeds. */
  lemma SpeakerSeesQuestions(t: int, speakers: seq<Speaker>, i: nat)
    requires i < |speakers| && speakers[i].telegramId == Some(t) && t != 0
    ensures SpeakerQuestionsLabel in Buttons(KeyboardFor(Some(t), speakers, false))
    ensures |KeyboardFor(Some(t), speakers, false)| == 3
  {
    assert IsSpeaker(t, speakers, false);
    KeyboardLayout(true);
  }

  /**
   * Nobody else gets it: not a sender whose id no speaker has, not a sender
   * without an id or with id 0, and nobody at all while the lookup fails.
   */
  lemma OnlySpeakersSeeQuestions(telegramId: Option<int>, speakers: seq<Speaker>, lookupFails: bool)
    ensures lookupFails ==> SpeakerQuestionsLabel !in Buttons(KeyboardFor(telegramId, speakers, lookupFails))
    ensures telegramId.None? || telegramId == Some(0) ==>
      SpeakerQuestionsLabel !in Buttons(KeyboardFor(telegramId, speakers, lookupFails))
    ensures (telegramId.Some? && forall i :: 0 <= i < |speakers| ==> speakers[i].telegramId != telegramId) ==>
      SpeakerQuestionsLabel !in Buttons(KeyboardFor(telegramId, speakers, lookupFails))
  {
  }

  /** Who took a message: one of the open flows, or the label table. */
  datatype Route = QuestionFlow | NetworkingFlow | DonationFlow | MenuLabel(action: MenuAction)

  /**
   * The priority order of `menu_router`: an awaited question, then an open
   * networking flow, then an awaited donation amount, then the labels.
   */
  function RouteFor(awaitingQuestion: bool, networking: NetworkingState, donation: DonationState, text: string): (r: Route)
    ensures r == QuestionFlow <==> awaitingQuestion
    ensures r == NetworkingFlow <==> !awaitingQuestion && networking != NetworkingIdle
    ensures r == DonationFlow <==> !awaitingQuestion && networking == NetworkingIdle && donation == WaitingForAmount
    ensures r.MenuLabel? ==> r.action == LabelAction(text)
  {
    if awaitingQuestion then QuestionFlow
    else if networking != NetworkingIdle then NetworkingFlow
    else if donation == WaitingForAmount then DonationFlow
    else MenuLabel(LabelAction(text))
  }

  /** While a question is awaited, even a menu label is taken as the question. */
  lemma AwaitedQuestionSwallowsLabels(networking: NetworkingState, donation: DonationState, text: string)
    ensures RouteFor(true, networking, donation, text) == QuestionFlow
    ensures RouteFor(true, networking, donation, text) != MenuLabel(LabelAction(text))
  {
  }

  /**
   * What a label does, as a function of the session before it: the question,
   * networking and donation keys afterwards and the replies sent.
   */
  function AfterLabel(action: MenuAction, q: QuestionKeys, n: NetworkingKeys, d: DonationKeys,
                      events: seq<Event>, speeches: seq<Speech>, now: int, lookupFails: bool)
    : (QuestionKeys, NetworkingKeys, DonationKeys, seq<Reply>)
  {
    match action
    case AskQuestionAction =>
      var active := Talks.GetActiveSpeech(speeches, now, lookupFails);
      if active.None? then (q, n, d, [NoActiveSpeech])
      else (QuestionKeys(true, Some(active.value.id)), n, d, [AskQuestionFor(active.value.speaker.name, active.value.title)])
    case ScheduleAction => (q, n, d, [Talks.ScheduleReply(events, speeches, now, lookupFails)])
    case NetworkingAction => (q, Networking.AfterStart(n).0, d, Networking.AfterStart(n).1)
    case DonationAction => (q, n, DonationKeys(WaitingForAmount, d.amount), [DonationIntro])
    case SpeakerQuestionsAction => (q, n, d, [])
    case NotUnderstoodAction => (q, n, d, [NotUnderstood])
  }

  /**
   * A label touches only the flow it starts: the question keys change only
   * when a speech is active, networking restarts the flow (keeping the
   * session consistent), a donation waits for an amount and keeps the stored
   * one; every label except "Мои вопросы" sends exactly one reply or, for
   * networking, the intro first.
   */
  lemma LabelOnlyStartsItsFlow(action: MenuAction, q: QuestionKeys, n: NetworkingKeys, d: DonationKeys,
                               events: seq<Event>, speeches: seq<Speech>, now: int, lookupFails: bool)
    ensures var (q', n', d', replies) := AfterLabel(action, q, n, d, events, speeches, now, lookupFails);
      && (action != AskQuestionAction ==> q' == q)
      && (action != NetworkingAction ==> n' == n)
      && (action != DonationAction ==> d' == d)
      && (action == AskQuestionAction ==>
            (q' != q ==> q'.awaiting && exists sp :: sp in speeches && Talks.IsActiveAt(sp, now) && q'.activeSpeechId == Some(sp.id)))
      && (action == NetworkingAction ==> Networking.Consistent(n') && |replies| == 2)
      && (action == DonationAction ==> d'.state == WaitingForAmount && d'.amount == d.amount)
      && (action == SpeakerQuestionsAction <==> replies == [])
      && (action !in {NetworkingAction, SpeakerQuestionsAction} ==> |replies| == 1)
  {
    if action == NetworkingAction {
      Networking.StartKeepsConsistent(n);
    }
  }

  /**
   * The label route is taken only with every flow idle, and a label opens at
   * most one flow, so at most one flow is open afterwards.
   */
  lemma LabelKeepsOneFlow(action: MenuAction, q: QuestionKeys, n: NetworkingKeys, d: DonationKeys,
                          events: seq<Event>, speeches: seq<Speech>, now: int, lookupFails: bool)
    requires !q.awaiting && n.state == NetworkingIdle && d.state == NoDonation
    ensures var (q', n', d', _) := AfterLabel(action, q, n, d, events, speeches, now, lookupFails);
      AtMostOneFlow(q', n', d')
  {
    LabelOnlyStartsItsFlow(action, q, n, d, events, speeches, now, lookupFails);
  }

  /** The label half of `menu_router`, reached when no flow took the message. */
  method DispatchLabel(u: UserData, chat: Chat, db: Store.Store, text: string, now: int, lookupFails: bool)
    returns (action: MenuAction)
    modifies u, chat
    ensures action == LabelAction(text)
    ensures var (q, n, d, replies) := AfterLabel(action, old(u.QuestionView()), old(u.NetworkingView()),
                                                 old(u.DonationView()), db.events, db.speeches, now, lookupFails);
      && u.QuestionView() == q && u.NetworkingView() == n && u.DonationView() == d
      && chat.replies == old(chat.replies) + replies
  {
    action := LabelAction(text);
    match action {
      case AskQuestionAction =>
        Talks.StartAskQuestion(u, chat, db, now, lookupFails);
      case ScheduleAction =>
        Talks.ShowSchedule(chat, db, now, lookupFails);
      case NetworkingAction =>
        Networking.StartNetworking(u, chat);
      case DonationAction =>
        Donations.StartDonation(u, chat);
      case SpeakerQuestionsAction =>
        // `show_speaker_questions` is not part of this model.
      case NotUnderstoodAction =>
        chat.Say(NotUnderstood);
    }
  }

  /**
   * `menu_router`: each flow handler is called only when the ones before it
   * declined, and a handler that declines changes nothing, so the route is
   * decided by the session before the message. The router clears no state:
   * the flows that did not take the message keep theirs. On the label route
   * the effect is `DispatchLabel`'s, started from the session as it was.
   * Since a flow opens only on the label route, which needs every flow idle,
   * the router keeps at most one flow open.
   */
  method MenuRouter(u: UserData, chat: Chat, db: Store.Store, user: TelegramUser, text: string,
                    now: int, lookupFails: bool, questionFault: Talks.QuestionFault,
                    participantWriteFails: bool)
    returns (route: Route)
    requires db.Valid()
    modifies u, chat, db`participants, db`questions
    ensures db.Valid()
    ensures route == RouteFor(old(u.awaitingQuestion), old(u.networkingState), old(u.donationState), text)
    ensures route == QuestionFlow ==>
      u.NetworkingView() == old(u.NetworkingView()) && u.DonationView() == old(u.DonationView())
    ensures route == NetworkingFlow ==>
      && u.QuestionView() == old(u.QuestionView()) && u.DonationView() == old(u.DonationView())
      && u.NetworkingView() == Networking.AfterNetworkingMessage(old(u.NetworkingView()), text).1
      && chat.replies == old(chat.replies) + Networking.AfterNetworkingMessage(old(u.NetworkingView()), text).2
      && db.participants == old(db.participants) && db.questions == old(db.questions)
    ensures route == DonationFlow ==>
      && u.QuestionView() == old(u.QuestionView()) && u.NetworkingView() == old(u.NetworkingView())
      && db.questions == old(db.questions)
    ensures route.MenuLabel? ==> db.participants == old(db.participants) && db.questions == old(db.questions)
    ensures route.MenuLabel? ==>
      var (q, n, d, replies) := AfterLabel(route.action, old(u.QuestionView()), old(u.NetworkingView()),
                                           old(u.DonationView()), db.events, db.speeches, now, lookupFails);
      && u.QuestionView() == q && u.NetworkingView() == n && u.DonationView() == d
      && chat.replies == old(chat.replies) + replies
    ensures AtMostOneFlow(old(u.QuestionView()), old(u.NetworkingView()), old(u.DonationView())) ==>
      AtMostOneFlow(u.QuestionView(), u.NetworkingView(), u.DonationView())
  {
    ghost var before := (u.QuestionView(), u.NetworkingView(), u.DonationView(), chat.replies);
    var handled := Talks.HandleQuestionIfWaiting(u, chat, db, user, text, questionFault);
    if handled {
      return QuestionFlow;
    }
    handled := Networking.HandleNetworkingMessageIfActive(u, chat, text);
    if handled {
      return NetworkingFlow;
    }
    handled := Donations.HandleDonationMessageIfActive(u, chat, db, user, text, participantWriteFails);
    if handled {
      return DonationFlow;
    }
    assert u.QuestionView() == before.0 && u.NetworkingView() == before.1;
    assert u.DonationView() == before.2 && chat.replies == before.3;
    LabelKeepsOneFlow(LabelAction(text), before.0, before.1, before.2, db.events, db.speeches, now, lookupFails);
    var action := DispatchLabel(u, chat, db, text, now, lookupFails);
    return MenuLabel(action);
  }
}
