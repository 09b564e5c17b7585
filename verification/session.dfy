/**
 * The per-user session (`context.user_data`) that every conversation flow
 * reads and writes, and the chat the handlers reply into.
 *
 * A key the handlers only read with `.get` is a plain field whose default is
 * the value `.get` returns for a missing key; a key the handlers `pop` is an
 * `Option` field, `None` meaning "absent".
 */
module Session {
  import opened Wrappers
  import opened Records

  /** `networking_state`: None, "filling_profile" or "browsing_candidates". */
  datatype NetworkingState = NetworkingIdle | FillingProfile | BrowsingCandidates

  /** `donation_state`: None or "waiting_for_amount". */
  datatype DonationState = NoDonation | WaitingForAmount

  /** The keys of the question flow. */
  datatype QuestionKeys = QuestionKeys(awaiting: bool, activeSpeechId: Option<int>)

  /** The keys of the networking flow. */
  datatype NetworkingKeys = NetworkingKeys(
    state: NetworkingState, step: nat, form: map<string, string>, hasProfile: bool,
    current: Option<Candidate>, seen: set<nat>)

  /** The keys of the donation flow. */
  datatype DonationKeys = DonationKeys(state: DonationState, amount: Option<nat>)

  /**
   * The session invariant of the three interactive flows: at most one of
   * them (an awaited question, an open networking flow, an awaited donation
   * amount) is waiting for the user's next message.
   */
  predicate AtMostOneFlow(q: QuestionKeys, n: NetworkingKeys, d: DonationKeys)
  {
    (if q.awaiting then 1 else 0) + (if n.state != NetworkingIdle then 1 else 0)
      + (if d.state == WaitingForAmount then 1 else 0) <= 1
  }

  class UserData {
    var awaitingQuestion: bool
    var activeSpeechId: Option<int>

    var networkingState: NetworkingState
    var networkingStep: nat
    var networkingForm: map<string, string>
    var networkingHasProfile: bool
    var networkingCurrentCandidate: Option<Candidate>
    var networkingSeen: set<nat>

    var donationState: DonationState
    var donationAmount: Option<nat>

    /** A fresh, empty `user_data`. */
    constructor ()
      ensures QuestionView() == QuestionKeys(false, None)
      ensures NetworkingView() == NetworkingKeys(NetworkingIdle, 0, map[], false, None, {})
      ensures DonationView() == DonationKeys(NoDonation, None)
      ensures AtMostOneFlow(QuestionView(), NetworkingView(), DonationView())
    {
      awaitingQuestion, activeSpeechId := false, None;
      networkingState, networkingStep, networkingForm := NetworkingIdle, 0, map[];
      networkingHasProfile, networkingCurrentCandidate, networkingSeen := false, None, {};
      donationState, donationAmount := NoDonation, None;
    }

    function QuestionView(): QuestionKeys
      reads this
    {
      QuestionKeys(awaitingQuestion, activeSpeechId)
    }

    function NetworkingView(): NetworkingKeys
      reads this
    {
      NetworkingKeys(networkingState, networkingStep, networkingForm, networkingHasProfile,
                     networkingCurrentCandidate, networkingSeen)
    }

    function DonationView(): DonationKeys
      reads this
    {
      DonationKeys(donationState, donationAmount)
    }
  }

  /** What the bot says back; the wording of each reply is not modelled. */
  datatype Reply =
    // question flow
    | NoActiveSpeech
    | AskQuestionFor(speakerName: string, speechTitle: string)
    | AskQuestion
    | QuestionThanks
    | SpeechNotBound
    | SpeechNotFound
    | QuestionSaveError
    // schedule
    | ScheduleText(eventTitle: string, lines: seq<ScheduleLine>)
    | NoActiveEvent
    | ScheduleUnavailable
    | ScheduleError
    | SampleSchedule
    // donation flow
    | DonationIntro
    | DonationCancelled
    | AmountNotUnderstood
    | AmountNotPositive
    | DonationThanks(amount: nat)
    | DonationError
    // networking flow
    | NetworkingIntro
    | NetworkingAgain
    | ProfileQuestion(step: nat)
    | ProfileSaved
    | NoCandidatesYet
    | ShowCandidate(card: CandidateCard)
    | NoMoreCandidates
    | BrowsingStopped
    | BrowsingHelp
    // menu
    | NotUnderstood

  /** The chat of the incoming message: `reply_text` appends to `replies`. */
  class Chat {
    var replies: seq<Reply>

    constructor ()
      ensures replies == []
    {
      replies := [];
    }

    method Say(r: Reply)
      modifies this
      ensures replies == old(replies) + [r]
    {
      replies := replies + [r];
    }
  }
}
