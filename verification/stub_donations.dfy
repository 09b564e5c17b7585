/**
 * The early donation flow without a store (bot/handlers/donations.py): the
 * same reading of the amount and the same session updates, but an accepted
 * amount is only acknowledged.
 */
module StubDonations {
  import opened Wrappers
  import opened Session
  import opened Amounts

  /** `start_donation`: enter the flow; a previously recorded amount is kept. */
  method StartDonation(u: UserData, chat: Chat)
    modifies u`donationState, chat
    ensures u.DonationView() == DonationKeys(WaitingForAmount, old(u.donationAmount))
    ensures chat.replies == old(chat.replies) + [DonationIntro]
  {
    u.donationState := WaitingForAmount;
    chat.Say(DonationIntro);
  }

  /** `handle_donation_message_if_active` without the Participant write. */
  method HandleDonationMessageIfActive(u: UserData, chat: Chat, text: string) returns (handled: bool)
    modifies u`donationState, u`donationAmount, chat
    ensures handled == (old(u.donationState) == WaitingForAmount)
    ensures !handled ==> u.DonationView() == old(u.DonationView()) && chat.replies == old(chat.replies)
    ensures handled ==> match ReadAmount(text)
      case Cancel =>
        u.DonationView() == DonationKeys(NoDonation, None) && chat.replies == old(chat.replies) + [DonationCancelled]
      case NoDigits =>
        u.DonationView() == old(u.DonationView()) && chat.replies == old(chat.replies) + [AmountNotUnderstood]
      case NotPositive =>
        u.DonationView() == old(u.DonationView()) && chat.replies == old(chat.replies) + [AmountNotPositive]
      case Amount(n) =>
        u.DonationView() == DonationKeys(NoDonation, Some(n)) && chat.replies == old(chat.replies) + [DonationThanks(n)]
  {
    if u.donationState != WaitingForAmount {
      return false;
    }
    match ReadAmount(text) {
      case Cancel =>
        u.donationState := NoDonation;
        u.donationAmount := None;
        chat.Say(DonationCancelled);
      case NoDigits =>
        chat.Say(AmountNotUnderstood);
      case NotPositive =>
        chat.Say(AmountNotPositive);
      case Amount(n) =>
        u.donationAmount := Some(n);
        u.donationState := NoDonation;
        chat.Say(DonationThanks(n));
    }
    return true;
  }
}
