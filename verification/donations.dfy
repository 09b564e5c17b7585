/**
 * The donation flow backed by the store (tg_bot/donations.py): the bot asks
 * for an amount, then reads the next message with `Amounts.ReadAmount`. An
 * accepted amount makes sure the sender is a Participant and answers with the
 * amount; no donation record is written.
 */
module Donations {
  import opened Wrappers
  import opened Records
  import opened Session
  import opened Amounts
  import Store

  /** `start_donation`: enter the flow; a previously recorded amount is kept. */
  method StartDonation(u: UserData, chat: Chat)
    modifies u`donationState, chat
    ensures u.DonationView() == DonationKeys(WaitingForAmount, old(u.donationAmount))
    ensures chat.replies == old(chat.replies) + [DonationIntro]
  {
    u.donationState := WaitingForAmount;
    chat.Say(DonationIntro);
  }

  /**
   * `handle_donation_message_if_active`: handled exactly while an amount is
   * awaited. A cancellation phrase leaves the flow and forgets the amount; a
   * message without digits or with only zeros re-prompts and stays in the
   * flow; a positive amount leaves the flow, records the amount, and then the
   * Participant get-or-create either succeeds (thanks with the amount) or
   * fails (error reply; the amount stays recorded and the flow stays left).
   */
  method HandleDonationMessageIfActive(u: UserData, chat: Chat, db: Store.Store, user: TelegramUser,
                                       text: string, participantWriteFails: bool)
    returns (handled: bool)
    requires db.Valid()
    modifies u`donationState, u`donationAmount, chat, db`participants
    ensures db.Valid()
    ensures handled == (old(u.donationState) == WaitingForAmount)
    ensures !handled ==>
      && u.DonationView() == old(u.DonationView())
      && chat.replies == old(chat.replies)
      && db.participants == old(db.participants)
    ensures handled ==> match ReadAmount(text)
      case Cancel =>
        && u.DonationView() == DonationKeys(NoDonation, None)
        && chat.replies == old(chat.replies) + [DonationCancelled]
        && db.participants == old(db.participants)
      case NoDigits =>
        && u.DonationView() == old(u.DonationView())
        && chat.replies == old(chat.replies) + [AmountNotUnderstood]
        && db.participants == old(db.participants)
      case NotPositive =>
        && u.DonationView() == old(u.DonationView())
        && chat.replies == old(chat.replies) + [AmountNotPositive]
        && db.participants == old(db.participants)
      case Amount(n) =>
        && u.DonationView() == DonationKeys(NoDonation, Some(n))
        && if participantWriteFails then
          && chat.replies == old(chat.replies) + [DonationError]
          && db.participants == old(db.participants)
        else
          && chat.replies == old(chat.replies) + [DonationThanks(n)]
          && db.participants == Store.WithParticipant(old(db.participants), user.id, user.username, Store.DefaultFullName(user))
  {
    if u.donationState != WaitingForAmount {
      return false;
    }
    var reading := ReadAmount(text);
    match reading {
      case Cancel =>
        u.donationState := NoDonation;
        u.donationAmount := None;
        chat.Say(DonationCancelled);
      case NoDigits =>
        chat.Say(AmountNotUnderstood);
      case NotPositive =>
        chat.Say(AmountNotPositive);
      case Amount(n) =>
        u.donationAmount := Some(n);
        u.donationState := NoDonation;
        if participantWriteFails {
          chat.Say(DonationError);
        } else {
          db.GetOrCreateParticipant(user.id, user.username, Store.DefaultFullName(user));
          chat.Say(DonationThanks(n));
        }
    }
    return true;
  }
}
