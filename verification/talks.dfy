/**
 * The question flow backed by the store (tg_bot/talks.py): the active-speech
 * time window, the schedule's three-way status, entering the flow and
 * capturing one question.
 *
 * `now` is an integer instant; a `lookupFails`/`fails` flag stands for a
 * store query that raises, and a `QuestionFault` for a write that raises.
 */
module Talks {
  import opened Wrappers
  import opened Records
  import opened Session
  import opened Text
  import Store

  /** The inclusive window `start_time <= now <= end_time`. */
  predicate IsActiveAt(sp: Speech, now: int)
  {
    sp.startTime <= now <= sp.endTime
  }

  /** Position of the first speech, in store order, whose window contains `now`. */
  function FirstActive(speeches: seq<Speech>, now: int): (r: Option<nat>)
    ensures r.Some? ==> r.value < |speeches| && IsActiveAt(speeches[r.value], now)
    ensures r.Some? ==> forall j :: 0 <= j < r.value ==> !IsActiveAt(speeches[j], now)
    ensures r.None? <==> forall j :: 0 <= j < |speeches| ==> !IsActiveAt(speeches[j], now)
  {
    if speeches == [] then None
    else if IsActiveAt(speeches[0], now) then Some(0)
    else match FirstActive(speeches[1..], now)
      case None => None
      case Some(k) => Some(k + 1)
  }

  /** `get_active_speech()`: the first speech active at `now`, or None (also when the query raises). */
  function GetActiveSpeech(speeches: seq<Speech>, now: int, lookupFails: bool): (r: Option<Speech>)
    ensures r.Some? ==> !lookupFails && r.value in speeches && IsActiveAt(r.value, now)
    ensures !lookupFails && (exists sp :: sp in speeches && IsActiveAt(sp, now)) ==> r.Some?
  {
    if lookupFails then None
    else match FirstActive(speeches, now)
      case None => None
      case Some(k) => Some(speeches[k])
  }

  /** The status column of the schedule. */
  function StatusAt(sp: Speech, now: int): Status
  {
    if sp.startTime <= now <= sp.endTime then Now
    else if now < sp.startTime then Upcoming
    else Finished
  }

  /**
   * Each speech has exactly one status: "now" is the active-speech window,
   * "upcoming" is before the start, "finished" is the rest.
   */
  lemma StatusCases(sp: Speech, now: int)
    ensures StatusAt(sp, now) == Now <==> IsActiveAt(sp, now)
    ensures StatusAt(sp, now) == Upcoming <==> now < sp.startTime
    ensures StatusAt(sp, now) == Finished <==> sp.startTime <= now && sp.endTime < now
  {
  }

  /** The speeches of event `eventId`, in store order. */
  function SpeechesOf(speeches: seq<Speech>, eventId: int): (r: seq<Speech>)
    ensures forall sp :: sp in r <==> sp in speeches && sp.eventId == eventId
    ensures |r| <= |speeches|
  {
    if speeches == [] then []
    else (if speeches[0].eventId == eventId then [speeches[0]] else []) + SpeechesOf(speeches[1..], eventId)
  }

  ghost predicate SortedByStart(s: seq<Speech>)
  {
    forall i, j :: 0 <= i < j < |s| ==> s[i].startTime <= s[j].startTime
  }

  function InsertByStart(sp: Speech, s: seq<Speech>): (r: seq<Speech>)
    requires SortedByStart(s)
    ensures SortedByStart(r)
    ensures multiset(r) == multiset(s) + multiset{sp}
    ensures forall x :: x in r ==> x == sp || x in s
  {
    if s == [] || sp.startTime < s[0].startTime then
      SortedCons(sp, s);
      [sp] + s
    else
      var rest := InsertByStart(sp, s[1..]);
      assert s == [s[0]] + s[1..];
      assert rest != [] ==> rest[0] in rest;
      SortedCons(s[0], rest);
      [s[0]] + rest
  }

  /** A speech that starts no later than the head of a start-ordered list may go in front of it. */
  lemma SortedCons(x: Speech, s: seq<Speech>)
    requires SortedByStart(s) && (s == [] || x.startTime <= s[0].startTime)
    ensures SortedByStart([x] + s)
  {
    var r := [x] + s;
    forall i, j | 0 <= i < j < |r| ensures r[i].startTime <= r[j].startTime {
      if i == 0 && j > 1 {
        assert r[j] == s[j - 1];
      }
    }
  }

  /** `order_by("start_time")`: the same speeches, ordered by start time. */
  function SortByStart(s: seq<Speech>): (r: seq<Speech>)
    ensures SortedByStart(r)
    ensures multiset(r) == multiset(s)
  {
    if s == [] then []
    else
      assert s == [s[0]] + s[1..];
      InsertByStart(s[0], SortByStart(s[1..]))
  }

  /** Position of the first active event, in store order. */
  function FirstActiveEventAt(events: seq<Event>): (r: Option<nat>)
    ensures r.Some? ==> r.value < |events| && events[r.value].isActive
    ensures r.Some? ==> forall j :: 0 <= j < r.value ==> !events[j].isActive
    ensures r.None? <==> forall j :: 0 <= j < |events| ==> !events[j].isActive
  {
    if events == [] then None
    else if events[0].isActive then Some(0)
    else match FirstActiveEventAt(events[1..])
      case None => None
      case Some(k) => Some(k + 1)
  }

  /** `Event.objects.filter(is_active=True).first()`, in the store's default order. */
  function FirstActiveEvent(events: seq<Event>): (r: Option<Event>)
    ensures r.Some? ==>
      exists i :: (0 <= i < |events| && events[i] == r.value && r.value.isActive
                   && forall j :: 0 <= j < i ==> !events[j].isActive)
    ensures r.None? <==> forall e :: e in events ==> !e.isActive
  {
    match FirstActiveEventAt(events)
    case None => None
    case Some(i) => Some(events[i])
  }

  function ScheduleLines(program: seq<Speech>, now: int): seq<ScheduleLine>
  {
    seq(|program|, k requires 0 <= k < |program| =>
      ScheduleLine(StatusAt(program[k], now), program[k].startTime, program[k].endTime,
                   program[k].speaker.name, program[k].title))
  }

  /** The reply of `show_schedule`. */
  function ScheduleReply(events: seq<Event>, speeches: seq<Speech>, now: int, fails: bool): Reply
  {
    if fails then ScheduleError
    else match FirstActiveEvent(events)
      case None => NoActiveEvent
      case Some(e) =>
        var program := SortByStart(SpeechesOf(speeches, e.id));
        if program == [] then ScheduleUnavailable
        else ScheduleText(e.title, ScheduleLines(program, now))
  }

  /**
   * A schedule lists the speeches of the first active event, each as often as
   * the store holds it, in start-time order, and marks a line "now" exactly when its speech's window
   * contains `now`.
   */
  lemma ScheduleSpec(events: seq<Event>, speeches: seq<Speech>, now: int, fails: bool)
    requires ScheduleReply(events, speeches, now, fails).ScheduleText?
    ensures var e := FirstActiveEvent(events).value;
      var lines := ScheduleReply(events, speeches, now, fails).lines;
      && !fails
      && ScheduleReply(events, speeches, now, fails).eventTitle == e.title
      && |lines| == |SpeechesOf(speeches, e.id)| > 0
      && (exists p :: multiset(p) == multiset(SpeechesOf(speeches, e.id)) && lines == ScheduleLines(p, now))
      && (forall i, j :: 0 <= i < j < |lines| ==> lines[i].start <= lines[j].start)
      && (forall k :: 0 <= k < |lines| ==>
            (lines[k].status == Now <==> lines[k].start <= now <= lines[k].end))
  {
    var e := FirstActiveEvent(events).value;
    var mine := SpeechesOf(speeches, e.id);
    var program := SortByStart(mine);
    var lines := ScheduleLines(program, now);
    assert ScheduleReply(events, speeches, now, fails) == ScheduleText(e.title, lines);
    assert multiset(program) == multiset(mine) && lines == ScheduleLines(program, now);
    assert |program| == |mine| by {
      assert |multiset(program)| == |multiset(mine)|;
    }
    LinesOfProgram(program, now);
  }

  /** The lines of a start-ordered program are in start order and say "now" exactly inside the window. */
  lemma LinesOfProgram(program: seq<Speech>, now: int)
    requires SortedByStart(program)
    ensures var lines := ScheduleLines(program, now);
      && |lines| == |program|
      && (forall i, j :: 0 <= i < j < |lines| ==> lines[i].start <= lines[j].start)
      && (forall k :: 0 <= k < |lines| ==>
            (lines[k].status == Now <==> lines[k].start <= now <= lines[k].end))
  {
    var lines := ScheduleLines(program, now);
    forall k | 0 <= k < |lines|
      ensures lines[k].status == Now <==> lines[k].start <= now <= lines[k].end
    {
      StatusCases(program[k], now);
    }
  }

  /**
   * "now" in the schedule agrees with the question flow's window: a speech the
   * schedule marks "now" means `get_active_speech` finds an active speech, and
   * the speech it finds is itself inside its window. It need not be the speech
   * on that line, nor one of the shown event's: the question flow searches the
   * speeches of every event.
   */
  lemma NowAgreesWithActiveSpeech(events: seq<Event>, speeches: seq<Speech>, now: int, k: nat)
    requires ScheduleReply(events, speeches, now, false).ScheduleText?
    requires k < |ScheduleReply(events, speeches, now, false).lines|
    requires ScheduleReply(events, speeches, now, false).lines[k].status == Now
    ensures GetActiveSpeech(speeches, now, false).Some?
    ensures StatusAt(GetActiveSpeech(speeches, now, false).value, now) == Now
  {
    var e := FirstActiveEvent(events).value;
    var mine := SpeechesOf(speeches, e.id);
    var program := SortByStart(mine);
    var lines := ScheduleLines(program, now);
    assert ScheduleReply(events, speeches, now, false) == ScheduleText(e.title, lines);
    var sp := program[k];
    assert lines[k].status == StatusAt(sp, now);
    StatusCases(sp, now);
    assert sp in multiset(mine) by { assert sp in multiset(program); }
    assert sp in speeches && IsActiveAt(sp, now);
    StatusCases(GetActiveSpeech(speeches, now, false).value, now);
  }

  /** The persistence fault, if any, of one `handle_question_if_waiting` call. */
  datatype QuestionFault = NoQuestionFault | ParticipantWriteFails | QuestionWriteFails

  predicate HasSpeech(speeches: seq<Speech>, id: int)
  {
    exists i :: 0 <= i < |speeches| && speeches[i].id == id
  }

  /** `start_ask_question`: enter the flow only while some speech is active, binding its id. */
  method StartAskQuestion(u: UserData, chat: Chat, db: Store.Store, now: int, lookupFails: bool)
    modifies u`awaitingQuestion, u`activeSpeechId, chat
    ensures var active := GetActiveSpeech(db.speeches, now, lookupFails);
      if active.None? then
        && u.QuestionView() == old(u.QuestionView())
        && chat.replies == old(chat.replies) + [NoActiveSpeech]
      else
        && u.QuestionView() == QuestionKeys(true, Some(active.value.id))
        && chat.replies == old(chat.replies) + [AskQuestionFor(active.value.speaker.name, active.value.title)]
  {
    var active := GetActiveSpeech(db.speeches, now, lookupFails);
    if active.None? {
      chat.Say(NoActiveSpeech);
      return;
    }
    u.awaitingQuestion := true;
    u.activeSpeechId := Some(active.value.id);
    chat.Say(AskQuestionFor(active.value.speaker.name, active.value.title));
  }

  /**
   * `handle_question_if_waiting`: while awaiting, the whole raw text becomes one
   * Question on the bound speech. Outcomes, in the order the source checks them:
   * no bound id (missing or 0), participant write fails, speech gone, question
   * write fails, success.
   */
  method HandleQuestionIfWaiting(u: UserData, chat: Chat, db: Store.Store, user: TelegramUser,
                                 text: string, fault: QuestionFault)
    returns (handled: bool)
    requires db.Valid()
    modifies u`awaitingQuestion, u`activeSpeechId, chat, db`participants, db`questions
    ensures db.Valid()
    ensures handled == old(u.awaitingQuestion)
    ensures !handled ==>
      && u.QuestionView() == old(u.QuestionView())
      && chat.replies == old(chat.replies)
      && db.participants == old(db.participants) && db.questions == old(db.questions)
    ensures handled ==> var sid := old(u.activeSpeechId);
      if sid.None? || sid.value == 0 then
        && u.QuestionView() == QuestionKeys(false, sid)
        && chat.replies == old(chat.replies) + [SpeechNotBound]
        && db.participants == old(db.participants) && db.questions == old(db.questions)
      else if fault == ParticipantWriteFails then
        && u.QuestionView() == old(u.QuestionView())
        && chat.replies == old(chat.replies) + [QuestionSaveError]
        && db.participants == old(db.participants) && db.questions == old(db.questions)
      else
        && db.participants == Store.WithParticipant(old(db.participants), user.id, user.username, Store.DefaultFullName(user))
        && if !HasSpeech(db.speeches, sid.value) then
          && u.QuestionView() == QuestionKeys(false, sid)
          && chat.replies == old(chat.replies) + [SpeechNotFound]
          && db.questions == old(db.questions)
        else if fault == QuestionWriteFails then
          && u.QuestionView() == old(u.QuestionView())
          && chat.replies == old(chat.replies) + [QuestionSaveError]
          && db.questions == old(db.questions)
        else
          && u.QuestionView() == QuestionKeys(false, None)
          && chat.replies == old(chat.replies) + [QuestionThanks]
          && db.questions == old(db.questions) + [Question(sid.value, user.id, text, false)]
  {
    if !u.awaitingQuestion {
      return false;
    }
    var speechId := u.activeSpeechId;
    if speechId.None? || speechId.value == 0 {
      chat.Say(SpeechNotBound);
      u.awaitingQuestion := false;
      return true;
    }
    if fault == ParticipantWriteFails {
      chat.Say(QuestionSaveError);
      return true;
    }
    db.GetOrCreateParticipant(user.id, user.username, Store.DefaultFullName(user));
    if !HasSpeech(db.speeches, speechId.value) {
      chat.Say(SpeechNotFound);
      u.awaitingQuestion := false;
      return true;
    }
    if fault == QuestionWriteFails {
      chat.Say(QuestionSaveError);
      return true;
    }
    db.CreateQuestion(Question(speechId.value, user.id, text, false));
    u.awaitingQuestion := false;
    u.activeSpeechId := None;
    chat.Say(QuestionThanks);
    return true;
  }

  /** `show_schedule`: one reply, no session change. */
  method ShowSchedule(chat: Chat, db: Store.Store, now: int, fails: bool)
    modifies chat
    ensures chat.replies == old(chat.replies) + [ScheduleReply(db.events, db.speeches, now, fails)]
  {
    chat.Say(ScheduleReply(db.events, db.speeches, now, fails));
  }
}
