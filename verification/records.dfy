/**
 * The durable records of the meetup bot (datacenter/models.py) and the record
 * shapes the bot builds from them. Timestamps are integers; model-level
 * validation (field lengths, blank/null rules) is not modelled.
 */
module Records {
  import opened Wrappers

  datatype Event = Event(id: int, title: string, description: string, date: int, isActive: bool)

  datatype Speaker = Speaker(id: int, name: string, telegramId: Option<int>)

  /** A speech with its speaker joined in, as `select_related("speaker")` returns it. */
  datatype Speech = Speech(
    id: int, eventId: int, speaker: Speaker, title: string, description: string,
    startTime: int, endTime: int, isActive: bool)

  /** A participant; `telegramId` is the unique get-or-create key. */
  datatype Participant = Participant(telegramId: int, username: string, fullName: string)

  datatype Question = Question(speechId: int, participantTid: int, questionText: string, isAnswered: bool)

  /** A (participant, event) subscription with the three toggles the notification service reads. */
  datatype Subscription = Subscription(
    participantTid: int, eventId: int,
    notifyProgramChanges: bool, notifyNewEvents: bool, notifyReminders: bool)

  datatype NotificationType = ProgramChange | NewEvent | Reminder | General

  /** What a notification's title is about. */
  datatype Heading =
    | ProgramChangeHeading(eventTitle: string)
    | NewEventHeading(eventTitle: string)
    | ReminderHeading(subject: string)

  /** The content of a stored notification message or of a message sent to a chat. */
  datatype Body =
    | Plain(text: string)
    | ProgramChangeMessage(eventTitle: string, description: string)
    | NewEventMessage(eventTitle: string, description: string, date: int)
    | SpeechReminder(speakerName: string, speechTitle: string, start: int)
    | EventReminder(eventTitle: string, date: int)

  /** One broadcast unit; `id` is the primary key the store assigns. */
  datatype Notification = Notification(
    id: nat, eventId: int, title: Heading, message: Body,
    notificationType: NotificationType, isSent: bool)

  /** A delivery receipt: `participantTid` was sent notification `notificationId`. */
  datatype UserNotification = UserNotification(participantTid: int, notificationId: nat, isRead: bool)

  /** The sender of an incoming message, as Telegram describes it. */
  datatype TelegramUser = TelegramUser(id: int, username: string, firstName: string, lastName: Option<string>)

  /** A networking candidate as a dict that may lack any of its keys. */
  datatype Candidate = Candidate(
    fullName: Option<string>, username: Option<string>, role: Option<string>,
    experience: Option<string>, lookingFor: Option<string>)

  /** The candidate card the bot shows; `contact` is None when there is no usable username. */
  datatype CandidateCard = CandidateCard(
    fullName: string, role: string, experience: string, lookingFor: string, contact: Option<string>)

  /** The three-way status of a speech in the schedule. */
  datatype Status = Now | Upcoming | Finished

  datatype ScheduleLine = ScheduleLine(status: Status, start: int, end: int, speakerName: string, title: string)
}
