/**
 * The networking flow (bot/handlers/networking.py): a three-question profile
 * form, then browsing candidates one at a time. Candidates come from a fixed
 * list of two; the indices a user has already been shown are kept in the
 * session, so nobody is shown twice and the list runs out for good.
 */
module Networking {
  import opened Wrappers
  import opened Records
  import opened Session
  import Text

  /** The form keys, in the order the profile questions are asked. */
  const ProfileKeys: seq<string> := ["role", "experience", "looking_for"]

  /** The placeholder shown for a missing or empty candidate field. */
  const NotSpecified: string := "Не указано"

  /** The stand-in candidate list, in order. */
  const DummyCandidates: seq<Candidate> := [
    Candidate(Some("Аня"), Some("anya_dev"), Some("Python backend"), Some("2 года"),
              Some("других backend-разработчиков и тимлидов")),
    Candidate(Some("Илья"), Some("ilya_data"), Some("Data engineer"), Some("3 года"),
              Some("data-людей и ML-разработчиков"))
  ]

  // ---------------------------------------------------------------------------
  // The candidate card

  /** `candidate.get(key) or "Не указано"`. */
  function OrNotSpecified(v: Option<string>): string
  {
    if v.Some? && v.value != [] then v.value else NotSpecified
  }

  /**
   * `_show_candidate`: what the card shows. No field is ever blank, a present
   * non-empty value is shown as is, and a contact is offered exactly when the
   * candidate has a non-empty username.
   */
  function CardOf(c: Candidate): (card: CandidateCard)
    ensures card.fullName != [] && card.role != [] && card.experience != [] && card.lookingFor != []
    ensures c.fullName.Some? && c.fullName.value != [] ==> card.fullName == c.fullName.value
    ensures c.role.Some? && c.role.value != [] ==> card.role == c.role.value
    ensures c.experience.Some? && c.experience.value != [] ==> card.experience == c.experience.value
    ensures c.lookingFor.Some? && c.lookingFor.value != [] ==> card.lookingFor == c.lookingFor.value
    ensures card.contact.Some? <==> c.username.Some? && c.username.value != []
    ensures card.contact.Some? ==> card.contact.value == c.username.value
  {
    CandidateCard(
      OrNotSpecified(c.fullName), OrNotSpecified(c.role), OrNotSpecified(c.experience),
      OrNotSpecified(c.lookingFor),
      if c.username.Some? && c.username.value != [] then Some(c.username.value) else None)
  }

  /** A candidate with an absent or empty field shows the placeholder there. */
  lemma MissingFieldsShowPlaceholder(c: Candidate)
    ensures c.fullName.None? || c.fullName == Some("") ==> CardOf(c).fullName == NotSpecified
    ensures c.role.None? || c.role == Some("") ==> CardOf(c).role == NotSpecified
    ensures c.experience.None? || c.experience == Some("") ==> CardOf(c).experience == NotSpecified
    ensures c.lookingFor.None? || c.lookingFor == Some("") ==> CardOf(c).lookingFor == NotSpecified
    ensures c.username.None? || c.username == Some("") ==> CardOf(c).contact.None?
  {
  }

  // ---------------------------------------------------------------------------
  // Fetching the next candidate

  /**
   * `_fetch_next_candidate_stub`'s choice: the lowest index from `from` on
   * that is not in `seen`, or None when every remaining index was seen.
   */
  function FirstUnseen(seen: set<nat>, from: nat): (r: Option<nat>)
    decreases |DummyCandidates| - from
    ensures r.Some? ==> from <= r.value < |DummyCandidates| && r.value !in seen
    ensures r.Some? ==> forall j :: from <= j < r.value ==> j in seen
    ensures r.None? <==> forall j :: from <= j < |DummyCandidates| ==> j in seen
  {
    if from >= |DummyCandidates| then None
    else if from !in seen then Some(from)
    else FirstUnseen(seen, from + 1)
  }

  /** The indices shown by `k` fetches in a row, starting from the seen set `seen`. */
  function Shown(seen: set<nat>, k: nat): seq<nat>
    decreases k
  {
    if k == 0 then []
    else match FirstUnseen(seen, 0)
      case None => Shown(seen, k - 1)
      case Some(i) => [i] + Shown(seen + {i}, k - 1)
  }

  /**
   * Fetches in a row never show a candidate twice, never show one seen before,
   * and only show indices of the list.
   */
  lemma {:induction false} ShownAreFresh(seen: set<nat>, k: nat)
    decreases k
    ensures forall a :: 0 <= a < |Shown(seen, k)| ==>
      Shown(seen, k)[a] < |DummyCandidates| && Shown(seen, k)[a] !in seen
    ensures forall a, b :: 0 <= a < b < |Shown(seen, k)| ==> Shown(seen, k)[a] != Shown(seen, k)[b]
  {
    if k > 0 {
      match FirstUnseen(seen, 0)
      case None =>
        ShownAreFresh(seen, k - 1);
      case Some(i) =>
        ShownAreFresh(seen + {i}, k - 1);
        var rest := Shown(seen + {i}, k - 1);
        assert Shown(seen, k) == [i] + rest;
        forall a | 0 <= a < |Shown(seen, k)|
          ensures Shown(seen, k)[a] < |DummyCandidates| && Shown(seen, k)[a] !in seen
        {
          if a > 0 {
            assert Shown(seen, k)[a] == rest[a - 1];
          }
        }
        forall a, b | 0 <= a < b < |Shown(seen, k)|
          ensures Shown(seen, k)[a] != Shown(seen, k)[b]
        {
          assert Shown(seen, k)[b] == rest[b - 1];
          if a > 0 {
            assert Shown(seen, k)[a] == rest[a - 1];
          }
        }
    }
  }

  /** Once every candidate was seen, no fetch shows anyone again. */
  lemma {:induction false} ExhaustedStaysExhausted(seen: set<nat>, k: nat)
    requires forall j :: 0 <= j < |DummyCandidates| ==> j in seen
    ensures Shown(seen, k) == []
  {
    if k > 0 {
      ExhaustedStaysExhausted(seen, k - 1);
    }
  }

  /**
   * A new user is shown Аня, then Илья, and then nobody, however many times
   * they ask; the seen set is never reset.
   */
  lemma TwoCandidatesThenNobody(k: nat)
    ensures Shown({}, k) == if k == 0 then [] else if k == 1 then [0] else [0, 1]
  {
    if k >= 1 {
      assert FirstUnseen({}, 0) == Some(0);
      assert {} + {0} == {0};
      assert Shown({}, k) == [0] + Shown({0}, k - 1);
      if k >= 2 {
        assert FirstUnseen({0}, 0) == Some(1);
        assert {0} + {1} == {0, 1};
        assert Shown({0}, k - 1) == [1] + Shown({0, 1}, k - 2);
        ExhaustedStaysExhausted({0, 1}, k - 2);
      }
    }
  }

  /** The seen set only ever holds indices of the list. */
  predicate SeenInRange(seen: set<nat>)
  {
    forall j :: j in seen ==> j < |DummyCandidates|
  }

  /** Applies one fetch to the networking keys: the chosen index joins the seen set. */
  function Fetch(keys: NetworkingKeys): (Option<nat>, NetworkingKeys)
  {
    var i := FirstUnseen(keys.seen, 0);
    if i.None? then (None, keys) else (i, keys.(seen := keys.seen + {i.value}))
  }

  /**
   * `start_matching`: the keys and the reply after it. With nobody left the
   * flow is left, but the previously shown candidate is not forgotten.
   */
  function AfterMatching(keys: NetworkingKeys): (NetworkingKeys, Reply)
  {
    var (i, fetched) := Fetch(keys);
    if i.None? then (keys.(state := NetworkingIdle), NoCandidatesYet)
    else
      var c := DummyCandidates[i.value];
      (fetched.(state := BrowsingCandidates, current := Some(c)), ShowCandidate(CardOf(c)))
  }

  /** `_show_next_candidate`: with nobody left the flow is left and the current candidate dropped. */
  function AfterNext(keys: NetworkingKeys): (NetworkingKeys, Reply)
  {
    var (i, fetched) := Fetch(keys);
    if i.None? then (keys.(state := NetworkingIdle, current := None), NoMoreCandidates)
    else
      var c := DummyCandidates[i.value];
      (fetched.(current := Some(c)), ShowCandidate(CardOf(c)))
  }

  /**
   * Showing a candidate means: it is a list entry not seen before, it is now
   * seen and current, and the card is its card; otherwise every entry was
   * already seen and the seen set is unchanged. The form is never touched.
   */
  lemma MatchingShowsUnseen(keys: NetworkingKeys)
    ensures var (after, reply) := AfterMatching(keys);
      && after.step == keys.step && after.form == keys.form && after.hasProfile == keys.hasProfile
      && (reply.ShowCandidate? <==> after.state == BrowsingCandidates)
      && (reply.ShowCandidate? ==>
            exists i :: 0 <= i < |DummyCandidates| && i !in keys.seen
              && after.seen == keys.seen + {i} && after.current == Some(DummyCandidates[i])
              && reply.card == CardOf(DummyCandidates[i]))
      && (!reply.ShowCandidate? ==>
            && reply == NoCandidatesYet && after.seen == keys.seen && after.current == keys.current
            && forall j :: 0 <= j < |DummyCandidates| ==> j in keys.seen)
  {
    var i := FirstUnseen(keys.seen, 0);
    if i.Some? {
      assert 0 <= i.value < |DummyCandidates| && i.value !in keys.seen;
    }
  }

  /** The same for asking for the next candidate while browsing. */
  lemma NextShowsUnseen(keys: NetworkingKeys)
    ensures var (after, reply) := AfterNext(keys);
      && after.step == keys.step && after.form == keys.form && after.hasProfile == keys.hasProfile
      && (reply.ShowCandidate? ==>
            exists i :: 0 <= i < |DummyCandidates| && i !in keys.seen
              && after.seen == keys.seen + {i} && after.current == Some(DummyCandidates[i])
              && after.state == keys.state && reply.card == CardOf(DummyCandidates[i]))
      && (!reply.ShowCandidate? ==>
            && reply == NoMoreCandidates && after.seen == keys.seen
            && after.state == NetworkingIdle && after.current.None?
            && forall j :: 0 <= j < |DummyCandidates| ==> j in keys.seen)
  {
    var i := FirstUnseen(keys.seen, 0);
    if i.Some? {
      assert 0 <= i.value < |DummyCandidates| && i.value !in keys.seen;
    }
  }

  /** A fetch adds at most one index, and one of the list: the seen set stays within the list. */
  lemma FetchKeepsSeenInRange(keys: NetworkingKeys)
    requires SeenInRange(keys.seen)
    ensures SeenInRange(Fetch(keys).1.seen)
    ensures SeenInRange(AfterMatching(keys).0.seen) && SeenInRange(AfterNext(keys).0.seen)
    ensures |Fetch(keys).1.seen| <= |DummyCandidates|
  {
    var i := FirstUnseen(keys.seen, 0);
    var after := Fetch(keys).1.seen;
    assert after <= {0, 1} by {
      forall j | j in after ensures j in {0, 1} {
        if i.Some? && j == i.value {
          assert j < |DummyCandidates|;
        }
      }
    }
    assert |{0, 1}| == 2;
    SubsetCard(after, {0, 1});
  }

  lemma SubsetCard(a: set<nat>, b: set<nat>)
    requires a <= b
    ensures |a| <= |b|
  {
    assert b == a + (b - a);
  }

  // ---------------------------------------------------------------------------
  // The profile form

  /** `_handle_profile_answer`'s update: the stripped answer is stored under the current key. */
  function RecordAnswer(step: nat, form: map<string, string>, text: string): (nat, map<string, string>)
  {
    if step < |ProfileKeys| then (step + 1, form[ProfileKeys[step] := Text.Strip(text)]) else (step, form)
  }

  /** Three answers from a fresh form fill exactly the three keys, in order, with the stripped answers. */
  lemma ThreeAnswersFillTheForm(a: string, b: string, c: string)
    ensures var (s1, f1) := RecordAnswer(0, map[], a);
      var (s2, f2) := RecordAnswer(s1, f1, b);
      RecordAnswer(s2, f2, c)
        == (3, map["role" := Text.Strip(a), "experience" := Text.Strip(b), "looking_for" := Text.Strip(c)])
  {
  }

  /** The keys answered so far. */
  function AnsweredKeys(step: nat): set<string>
  {
    set j | 0 <= j < step && j < |ProfileKeys| :: ProfileKeys[j]
  }

  /**
   * The session invariant of the flow: while browsing there is a current
   * candidate, and while filling the profile the form holds exactly the keys
   * of the questions answered so far.
   */
  predicate Consistent(keys: NetworkingKeys)
  {
    && (keys.state == BrowsingCandidates ==> keys.current.Some?)
    && (keys.state == FillingProfile ==> keys.step < |ProfileKeys| && keys.form.Keys == AnsweredKeys(keys.step))
  }

  /**
   * Recording an answer moves to the next question, adds exactly the key of
   * the question answered, stores the stripped answer there, and keeps every
   * earlier answer.
   */
  lemma RecordAnswerKeys(step: nat, form: map<string, string>, text: string)
    requires step < |ProfileKeys| && form.Keys == AnsweredKeys(step)
    ensures var (step', form') := RecordAnswer(step, form, text);
      && step' == step + 1
      && form'.Keys == AnsweredKeys(step + 1)
      && form'[ProfileKeys[step]] == Text.Strip(text)
      && forall k :: k in form ==> form'[k] == form[k]
  {
    assert AnsweredKeys(step + 1) == AnsweredKeys(step) + {ProfileKeys[step]};
  }


  // ---------------------------------------------------------------------------
  // Browsing commands

  datatype BrowseCommand = NextCandidate | StopBrowsing | Unrecognised

  /** `_handle_candidate_flow`'s reading of the stripped, lowercased text; "след" wins over a stop. */
  function ReadBrowseCommand(text: string): (r: BrowseCommand)
    ensures r == NextCandidate <==> Text.StartsWith(Text.Lower(Text.Strip(text)), "след")
    ensures r == StopBrowsing <==>
      var t := Text.Lower(Text.Strip(text));
      !Text.StartsWith(t, "след") && (Text.StartsWith(t, "стоп") || t == "хватит" || t == "stop")
  {
    var t := Text.Lower(Text.Strip(text));
    if Text.StartsWith(t, "след") then NextCandidate
    else if Text.StartsWith(t, "стоп") || t == "хватит" || t == "stop" then StopBrowsing
    else Unrecognised
  }

  // ---------------------------------------------------------------------------
  // Whole handler steps on the session keys, with the replies they send

  /** `_finish_profile` before it starts matching: the form is kept, the step reset. */
  function Finished(keys: NetworkingKeys): NetworkingKeys
  {
    keys.(state := NetworkingIdle, step := 0, hasProfile := true)
  }

  /** `_finish_profile`: the profile-saved reply, then matching. */
  function AfterFinish(keys: NetworkingKeys): (NetworkingKeys, seq<Reply>)
  {
    var (after, reply) := AfterMatching(Finished(keys));
    (after, [ProfileSaved, reply])
  }

  /** `_ask_current_profile_question`: ask the current question, or finish past the last one. */
  function AfterAsk(keys: NetworkingKeys): (NetworkingKeys, seq<Reply>)
  {
    if keys.step >= |ProfileKeys| then AfterFinish(keys) else (keys, [ProfileQuestion(keys.step)])
  }

  /** `start_networking`: the intro and the form for a new user, matching for one with a profile. */
  function AfterStart(keys: NetworkingKeys): (NetworkingKeys, seq<Reply>)
  {
    if !keys.hasProfile then
      var (after, replies) := AfterAsk(keys.(state := FillingProfile, step := 0, form := map[]));
      (after, [NetworkingIntro] + replies)
    else
      var (after, reply) := AfterMatching(keys);
      (after, [NetworkingAgain, reply])
  }

  /** `_handle_profile_answer`: record the answer, then ask the next question or finish. */
  function AfterProfileAnswer(keys: NetworkingKeys, text: string): (NetworkingKeys, seq<Reply>)
  {
    var (step, form) := RecordAnswer(keys.step, keys.form, text);
    var recorded := keys.(step := step, form := form);
    if step < |ProfileKeys| then AfterAsk(recorded) else AfterFinish(recorded)
  }

  /** `_handle_candidate_flow`: next candidate, stop, or the help text. */
  function AfterCandidateText(keys: NetworkingKeys, text: string): (NetworkingKeys, seq<Reply>)
  {
    match ReadBrowseCommand(text)
    case NextCandidate =>
      var (after, reply) := AfterNext(keys);
      (after, [reply])
    case StopBrowsing => (keys.(state := NetworkingIdle, current := None), [BrowsingStopped])
    case Unrecognised => (keys, [BrowsingHelp])
  }

  /** `handle_networking_message_if_active`: whether the message was taken, and what followed. */
  function AfterNetworkingMessage(keys: NetworkingKeys, text: string): (bool, NetworkingKeys, seq<Reply>)
  {
    match keys.state
    case FillingProfile =>
      var (after, replies) := AfterProfileAnswer(keys, text);
      (true, after, replies)
    case BrowsingCandidates =>
      var (after, replies) := AfterCandidateText(keys, text);
      (true, after, replies)
    case NetworkingIdle => (false, keys, [])
  }

  /**
   * Starting matching always leaves a consistent session: either browsing
   * with a current candidate, or idle.
   */
  lemma MatchingIsConsistent(keys: NetworkingKeys)
    ensures Consistent(AfterMatching(keys).0)
    ensures AfterMatching(keys).0.state != FillingProfile
  {
  }

  /** Every entry point keeps the session invariant. */
  lemma StartKeepsConsistent(keys: NetworkingKeys)
    ensures Consistent(AfterStart(keys).0)
  {
    MatchingIsConsistent(keys);
    assert AnsweredKeys(0) == {};
  }

  /** A message in the flow keeps the session invariant. */
  lemma MessageKeepsConsistent(keys: NetworkingKeys, text: string)
    requires Consistent(keys)
    ensures Consistent(AfterNetworkingMessage(keys, text).1)
  {
    match keys.state
    case FillingProfile =>
      RecordAnswerKeys(keys.step, keys.form, text);
      MatchingIsConsistent(Finished(keys.(step := |ProfileKeys|, form := RecordAnswer(keys.step, keys.form, text).1)));
    case BrowsingCandidates =>
    case NetworkingIdle =>
  }

  /**
   * A new user who answers the three questions ends with a profile holding
   * the three stripped answers, is thanked, and then matched exactly as
   * `AfterMatching` says; one who has seen nobody is shown Аня and browses.
   * Each answer before the last is followed by the next question.
   */
  lemma ProfileRun(keys: NetworkingKeys, a: string, b: string, c: string)
    requires !keys.hasProfile
    ensures var (k0, r0) := AfterStart(keys);
      var (h1, k1, r1) := AfterNetworkingMessage(k0, a);
      var (h2, k2, r2) := AfterNetworkingMessage(k1, b);
      var (h3, k3, r3) := AfterNetworkingMessage(k2, c);
      && r0 == [NetworkingIntro, ProfileQuestion(0)]
      && h1 && r1 == [ProfileQuestion(1)]
      && h2 && r2 == [ProfileQuestion(2)]
      && h3 && |r3| == 2 && r3[0] == ProfileSaved
      && k3.hasProfile && k3.step == 0 && k3.state != FillingProfile
      && k3.form == map["role" := Text.Strip(a), "experience" := Text.Strip(b), "looking_for" := Text.Strip(c)]
      && (k3, r3[1]) == AfterMatching(keys.(state := NetworkingIdle, step := 0, hasProfile := true, form := k3.form))
      && (keys.seen == {} ==>
            && k3.state == BrowsingCandidates && k3.seen == {0} && k3.current == Some(DummyCandidates[0])
            && r3[1] == ShowCandidate(CardOf(DummyCandidates[0])))
  {
    ThreeAnswersFillTheForm(a, b, c);
    if keys.seen == {} {
      assert FirstUnseen({}, 0) == Some(0);
      assert {} + {0} == {0};
    }
  }

  // ---------------------------------------------------------------------------
  // The handlers

  /** `_fetch_next_candidate_stub`: the loop over the list, skipping seen indices. */
  method FetchNextCandidate(u: UserData) returns (c: Option<Candidate>)
    modifies u`networkingSeen
    ensures var (i, after) := Fetch(old(u.NetworkingView()));
      && u.networkingSeen == after.seen
      && c == if i.None? then None else Some(DummyCandidates[i.value])
  {
    var seen := u.networkingSeen;
    for idx := 0 to |DummyCandidates|
      invariant forall j :: 0 <= j < idx ==> j in seen
      invariant seen == u.networkingSeen == old(u.networkingSeen)
    {
      if idx in seen {
        continue;
      }
      seen := seen + {idx};
      u.networkingSeen := seen;
      return Some(DummyCandidates[idx]);
    }
    return None;
  }

  /** `start_matching`. */
  method StartMatching(u: UserData, chat: Chat)
    modifies u`networkingState, u`networkingCurrentCandidate, u`networkingSeen, chat
    ensures u.NetworkingView() == AfterMatching(old(u.NetworkingView())).0
    ensures chat.replies == old(chat.replies) + [AfterMatching(old(u.NetworkingView())).1]
  {
    u.networkingState := BrowsingCandidates;
    var candidate := FetchNextCandidate(u);
    if candidate.None? {
      u.networkingState := NetworkingIdle;
      chat.Say(NoCandidatesYet);
      return;
    }
    u.networkingCurrentCandidate := candidate;
    chat.Say(ShowCandidate(CardOf(candidate.value)));
  }
  /** `_finish_profile`; the form is only logged, so it is kept but not stored anywhere else. */
  method FinishProfile(u: UserData, chat: Chat)
    modifies u`networkingState, u`networkingStep, u`networkingForm, u`networkingHasProfile,
             u`networkingCurrentCandidate, u`networkingSeen, chat
    ensures u.NetworkingView() == AfterFinish(old(u.NetworkingView())).0
    ensures chat.replies == old(chat.replies) + AfterFinish(old(u.NetworkingView())).1
  {
    u.networkingState := NetworkingIdle;
    u.networkingStep := 0;
    u.networkingHasProfile := true;
    chat.Say(ProfileSaved);
    StartMatching(u, chat);
  }

  /** `_ask_current_profile_question`. */
  method AskCurrentProfileQuestion(u: UserData, chat: Chat)
    modifies u`networkingState, u`networkingStep, u`networkingForm, u`networkingHasProfile,
             u`networkingCurrentCandidate, u`networkingSeen, chat
    ensures u.NetworkingView() == AfterAsk(old(u.NetworkingView())).0
    ensures chat.replies == old(chat.replies) + AfterAsk(old(u.NetworkingView())).1
  {
    var step := u.networkingStep;
    if step >= |ProfileKeys| {
      FinishProfile(u, chat);
      return;
    }
    chat.Say(ProfileQuestion(step));
  }

  /** `start_profile_form`: a fresh form from the first question. */
  method StartProfileForm(u: UserData, chat: Chat)
    modifies u`networkingState, u`networkingStep, u`networkingForm, u`networkingHasProfile,
             u`networkingCurrentCandidate, u`networkingSeen, chat
    ensures u.NetworkingView() == AfterAsk(old(u.NetworkingView()).(state := FillingProfile, step := 0, form := map[])).0
    ensures chat.replies == old(chat.replies) + AfterAsk(old(u.NetworkingView()).(state := FillingProfile, step := 0, form := map[])).1
  {
    u.networkingState := FillingProfile;
    u.networkingStep := 0;
    u.networkingForm := map[];
    AskCurrentProfileQuestion(u, chat);
  }

  /** `start_networking`. */
  method StartNetworking(u: UserData, chat: Chat)
    modifies u`networkingState, u`networkingStep, u`networkingForm, u`networkingHasProfile,
             u`networkingCurrentCandidate, u`networkingSeen, chat
    ensures u.NetworkingView() == AfterStart(old(u.NetworkingView())).0
    ensures chat.replies == old(chat.replies) + AfterStart(old(u.NetworkingView())).1
  {
    if !u.networkingHasProfile {
      chat.Say(NetworkingIntro);
      StartProfileForm(u, chat);
    } else {
      chat.Say(NetworkingAgain);
      StartMatching(u, chat);
    }
  }

  /** `_handle_profile_answer`. */
  method HandleProfileAnswer(u: UserData, chat: Chat, text: string)
    modifies u`networkingState, u`networkingStep, u`networkingForm, u`networkingHasProfile,
             u`networkingCurrentCandidate, u`networkingSeen, chat
    ensures u.NetworkingView() == AfterProfileAnswer(old(u.NetworkingView()), text).0
    ensures chat.replies == old(chat.replies) + AfterProfileAnswer(old(u.NetworkingView()), text).1
  {
    var step := u.networkingStep;
    var form := u.networkingForm;
    if step < |ProfileKeys| {
      form := form[ProfileKeys[step] := Text.Strip(text)];
      u.networkingForm := form;
      u.networkingStep := step + 1;
    }
    if u.networkingStep < |ProfileKeys| {
      AskCurrentProfileQuestion(u, chat);
    } else {
      FinishProfile(u, chat);
    }
  }

  /** `_show_next_candidate`. */
  method ShowNextCandidate(u: UserData, chat: Chat)
    modifies u`networkingState, u`networkingStep, u`networkingForm, u`networkingHasProfile,
             u`networkingCurrentCandidate, u`networkingSeen, chat
    ensures u.NetworkingView() == AfterNext(old(u.NetworkingView())).0
    ensures chat.replies == old(chat.replies) + [AfterNext(old(u.NetworkingView())).1]
  {
    var candidate := FetchNextCandidate(u);
    if candidate.None? {
      u.networkingState := NetworkingIdle;
      u.networkingCurrentCandidate := None;
      chat.Say(NoMoreCandidates);
      return;
    }
    u.networkingCurrentCandidate := candidate;
    chat.Say(ShowCandidate(CardOf(candidate.value)));
  }

  /** `_handle_candidate_flow`: always takes the message. */
  method HandleCandidateFlow(u: UserData, chat: Chat, text: string)
    modifies u`networkingState, u`networkingStep, u`networkingForm, u`networkingHasProfile,
             u`networkingCurrentCandidate, u`networkingSeen, chat
    ensures u.NetworkingView() == AfterCandidateText(old(u.NetworkingView()), text).0
    ensures chat.replies == old(chat.replies) + AfterCandidateText(old(u.NetworkingView()), text).1
  {
    match ReadBrowseCommand(text) {
      case NextCandidate =>
        ShowNextCandidate(u, chat);
      case StopBrowsing =>
        u.networkingState := NetworkingIdle;
        u.networkingCurrentCandidate := None;
        chat.Say(BrowsingStopped);
      case Unrecognised =>
        chat.Say(BrowsingHelp);
    }
  }

  /** `handle_networking_message_if_active`: taken exactly while filling the profile or browsing. */
  method HandleNetworkingMessageIfActive(u: UserData, chat: Chat, text: string) returns (handled: bool)
    modifies u`networkingState, u`networkingStep, u`networkingForm, u`networkingHasProfile,
             u`networkingCurrentCandidate, u`networkingSeen, chat
    ensures handled == AfterNetworkingMessage(old(u.NetworkingView()), text).0
    ensures handled <==> old(u.networkingState) != NetworkingIdle
    ensures u.NetworkingView() == AfterNetworkingMessage(old(u.NetworkingView()), text).1
    ensures chat.replies == old(chat.replies) + AfterNetworkingMessage(old(u.NetworkingView()), text).2
  {
    match u.networkingState {
      case FillingProfile =>
        HandleProfileAnswer(u, chat, text);
        return true;
      case BrowsingCandidates =>
        HandleCandidateFlow(u, chat, text);
        return true;
      case NetworkingIdle =>
        return false;
    }
  }
}
