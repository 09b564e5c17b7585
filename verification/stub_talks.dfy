/**
 * The early question flow without a store (bot/handlers/talks.py): entering
 * the flow needs no active speech, and any next text is taken as the question.
 * The question is only logged there, so nothing is persisted here either.
 */
module StubTalks {
  import opened Session

  /** `start_ask_question`: sets the flag unconditionally. */
  method StartAskQuestion(u: UserData, chat: Chat)
    modifies u`awaitingQuestion, chat
    ensures u.awaitingQuestion
    ensures chat.replies == old(chat.replies) + [AskQuestion]
  {
    u.awaitingQuestion := true;
    chat.Say(AskQuestion);
  }

  /**
   * `handle_question_if_waiting`: when not awaiting, nothing happens; when
   * awaiting, every text (there is no cancellation phrase) clears the flag.
   */
  method HandleQuestionIfWaiting(u: UserData, chat: Chat, text: string) returns (handled: bool)
    modifies u`awaitingQuestion, chat
    ensures handled == old(u.awaitingQuestion)
    ensures !u.awaitingQuestion
    ensures chat.replies == old(chat.replies) + (if handled then [QuestionThanks] else [])
  {
    if !u.awaitingQuestion {
      return false;
    }
    u.awaitingQuestion := false;
    chat.Say(QuestionThanks);
    return true;
  }

  /** `show_schedule`: the same fixed sample programme every time. */
  method ShowSchedule(chat: Chat)
    modifies chat
    ensures chat.replies == old(chat.replies) + [SampleSchedule]
  {
    chat.Say(SampleSchedule);
  }
}
