/** The durable entities of the watchdog: incidents, alert events and the committed state.

    A SHA-256 digest is modelled by the value it was taken of, so two digests are equal
    exactly when the digested contents are. Instants are microseconds since the epoch.
 */
module WatchdogTypes {
  import opened Optional

  type Time = int

  const SECOND: int := 1_000_000
  const DAY: int := 86_400 * SECOND
  const SHANGHAI_OFFSET: int := 8 * 3_600 * SECOND

  /** The Shanghai calendar date of an instant, as a day number. */
  function DateOf(t: Time): int {
    (t + SHANGHAI_OFFSET) / DAY
  }

  datatype Severity = P0 | P1 | P2

  datatype Rule = Calendar | Probe | Process | Data | Account | Capability | News | Delivery

  datatype Reason =
    | CalendarUnavailable
    | ProbeFailure(code: string)
    | ProcessFailure(code: string)
    | QuoteMissing
    | DataObservationUnavailable
    | AccountUnavailableOrFrozen
    | MissingCapability(name: string)
    | NewsRecoveryUnavailable
    | DurableManualReview

  /** `incident['key']`: the digest of rule, reason, business date and boot hash. */
  datatype Key = Key(rule: Rule, reason: Reason, date: int, boot: string)

  datatype Incident = Incident(key: Key, severity: Severity)

  /** `generation_sha256`: the digest of a key and the instant its outage began. */
  datatype Generation = Generation(key: Key, since: Time)

  /** One value of the durable `active` map; entries written before generations existed have none. */
  datatype Entry = Entry(severity: Severity, generation: Option<Generation>, lastEventAt: Time)

  datatype Action = First | Changed | Reminder | Recovery

  /** An event file. Its name is its digest, so the value also stands for the name. */
  datatype Event = Event(key: Key, severity: Severity, action: Action, generation: Generation,
                         observedAt: Time, closedLastEventAt: Option<Time>)

  datatype Resolved = Resolved(generation: Generation, observedAt: Time)

  datatype Session = Unavailable | Closed | Auction | Morning | LunchBreak | Afternoon | AfterHours

  datatype QuoteToken = QuoteToken(date: int, session: Session, boot: string, reason: Option<Reason>)

  datatype Poll = Poll(quoteStreak: nat, quoteToken: Option<QuoteToken>, pollAt: Option<Time>)

  /** `state.json`. */
  datatype State = State(active: map<Key, Entry>, outbox: seq<Event>,
                         resolved: map<Key, Resolved>, poll: Poll)

  /** What an absent `state.json` stands for. */
  const EMPTY_STATE: State := State(map[], [], map[], Poll(0, None, None))
}
