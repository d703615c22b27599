/** Durable receipts around an at-most-once alert sender
    (`dispatch_mobile`, `read_receipt`, `unknown_subject`, `validate_outcome` in scripts/watchdog_mobile.py).

    Every `write_at` and every sender call is one action. A run is given `fuel` actions and stops dead
    when they are used up, so quantifying over the fuel covers a crash after any action. An exception
    has the same durable effect, and empties the fuel.
 */
module WatchdogDispatch {
  import opened Optional
  import opened WatchdogTypes

  const MAX_ATTEMPTS: nat := 3
  const MAX_SENDS_PER_RUN: nat := 3
  const EVENT_TTL: int := 900 * SECOND

  /** What is sent: an alert event, or the daily self-check file. */
  datatype Message = Alert(event: Event) | SelfCheck(observedAt: Time) {
    function At(): Time {
      match this case Alert(e) => e.observedAt case SelfCheck(t) => t
    }

    function SubjectOf(): Subject {
      match this
      case Alert(e) => IncidentSubject(e.key, e.generation, e.severity, e.action == Recovery)
      case SelfCheck(t) => SelfCheckSubject(t)
    }
  }

  datatype Subject =
    | IncidentSubject(key: Key, generation: Generation, severity: Severity, recovery: bool)
    | SelfCheckSubject(observedAt: Time)

  datatype Status = InFlight | Accepted | FailedRetryable | FailedFinal | Unknown | Expired | Suppressed {
    predicate Final() {
      this != InFlight && this != FailedRetryable
    }
  }

  datatype Why =
    | AttemptStarted | ServiceAccepted | RequestRejected | ConnectFailed | TlsRejected | SendUnknown
    | ResponseOversized | ResponseUnqualified | WorkerUnknown | SpawnFailed | PriorInFlight
    | EventExpired | NoLongerCurrent | OutsidePolicy | SubjectUnknown | RetryLimit

  datatype Outcome = Outcome(status: Status, why: Why, http: Option<int>)

  /** `validate_outcome`. */
  predicate ValidOutcome(o: Outcome) {
    && (o.http.Some? ==> 100 <= o.http.value <= 599)
    && match o.status
       case Accepted => o.why == ServiceAccepted
       case FailedRetryable => o.why == ConnectFailed || o.why == SpawnFailed
       case FailedFinal => o.why == TlsRejected || o.why == RequestRejected
       case Unknown => o.why in {SendUnknown, ResponseOversized, ResponseUnqualified, WorkerUnknown}
       case _ => false
  }

  datatype Receipt = Receipt(status: Status, why: Why, attempts: nat, at: Time,
                             nextAttempt: Option<Time>, http: Option<int>)

  /** The checks `read_receipt` makes before it trusts a receipt file. */
  predicate Readable(r: Receipt) {
    && r.attempts <= MAX_ATTEMPTS
    && (match r.status
        case InFlight => r.why == AttemptStarted
        case Accepted => r.why == ServiceAccepted
        case FailedRetryable => r.why == ConnectFailed || r.why == SpawnFailed
        case FailedFinal => r.why in {TlsRejected, RequestRejected, RetryLimit}
        case Unknown => r.why in {SendUnknown, ResponseOversized, ResponseUnqualified, WorkerUnknown, PriorInFlight}
        case Expired => r.why == EventExpired
        case Suppressed => r.why in {NoLongerCurrent, OutsidePolicy, SubjectUnknown})
    && (r.status in {InFlight, Accepted, FailedRetryable, Unknown} ==> r.attempts > 0)
    && (r.status == FailedRetryable ==> r.nextAttempt.Some?)
    && (r.status == Accepted ==> r.http == Some(200))
    && (r.why == RequestRejected ==> r.http == Some(400))
  }

  /** What the sender did. Interrupted: it raised, or the process died before it returned. */
  datatype Reply = Returned(outcome: Outcome) | Interrupted {
    /** The caller holds an outcome it accepts. */
    predicate Usable() {
      Returned? && ValidOutcome(outcome)
    }

    /** Proof that nothing left this machine. */
    predicate ProvenUnsent() {
      Usable() && outcome.status == FailedRetryable
    }

    /** The call may have transmitted and nobody can tell. */
    predicate Uncertain() {
      !Usable() || outcome.status == Unknown
    }
  }

  /** One sender call, with the number of states committed before it. */
  datatype Call = Call(message: Message, at: Time, reply: Reply, epoch: nat)

  /** The `mobile-receipts` directory. */
  datatype Disk = Disk(receipts: map<Message, Receipt>, subjects: map<Subject, Message>)

  datatype Candidate = Candidate(message: Message, current: bool, permitted: bool)

  /** A run in progress: the disk, every sender call ever made, this run's sends, actions left. */
  datatype Run = Run(disk: Disk, calls: seq<Call>, attempted: nat, fuel: nat)

  datatype Gate = Open | Blocked | Unreadable

  /** `unknown_subject`. */
  function GateOf(d: Disk, subject: Subject): Gate {
    if subject !in d.subjects then Open
    else if d.subjects[subject] !in d.receipts then Blocked
    else
      var r := d.receipts[d.subjects[subject]];
      if !Readable(r) then Unreadable
      else if r.status == InFlight || r.status == Unknown then Blocked
      else Open
  }

  function Pow4(e: nat): nat {
    if e == 0 then 1 else 4 * Pow4(e - 1)
  }

  /** The wait after attempt number `attempts`. */
  function Backoff(attempts: nat): int
    requires attempts > 0
  {
    60 * SECOND * Pow4(attempts - 1)
  }

  datatype Decision = Leave | Abort | Record(receipt: Receipt) | Attempt(receipt: Receipt)

  /** A receipt that does not exist yet, before its first status. */
  function Blank(now: Time): Receipt {
    Receipt(Expired, EventExpired, 0, now, None, None)
  }

  function Decide(d: Disk, c: Candidate, now: Time, attempted: nat): Decision {
    var m := c.message;
    if m in d.receipts && !Readable(d.receipts[m]) then Abort
    else if m in d.receipts && d.receipts[m].status == InFlight then
      Record(d.receipts[m].(status := Unknown, why := PriorInFlight, at := now))
    else if m in d.receipts && d.receipts[m].status.Final() then Leave
    else
      var r := if m in d.receipts then d.receipts[m] else Blank(now);
      if !(0 <= now - m.At() < EVENT_TTL) then Record(r.(status := Expired, why := EventExpired, at := now))
      else if !c.current then Record(r.(status := Suppressed, why := NoLongerCurrent, at := now))
      else if !c.permitted then Record(r.(status := Suppressed, why := OutsidePolicy, at := now))
      else if GateOf(d, m.SubjectOf()) == Unreadable then Abort
      else if GateOf(d, m.SubjectOf()) == Blocked then
        Record(r.(status := Suppressed, why := SubjectUnknown, at := now))
      else if r.attempts >= MAX_ATTEMPTS then Record(r.(status := FailedFinal, why := RetryLimit, at := now))
      else if attempted >= MAX_SENDS_PER_RUN || (r.nextAttempt.Some? && now < r.nextAttempt.value) then Leave
      else Attempt(Receipt(InFlight, AttemptStarted, r.attempts + 1, now, None, r.http))
  }

  /** The receipt after a usable outcome of the attempt that `r` recorded as in flight. */
  function Settle(r: Receipt, o: Outcome, now: Time): Receipt
    requires r.attempts > 0
  {
    var http := if o.http.Some? then o.http else r.http;
    if o.status != FailedRetryable then r.(status := o.status, why := o.why, http := http)
    else if r.attempts == MAX_ATTEMPTS then r.(status := FailedFinal, why := RetryLimit, http := http)
    else r.(status := FailedRetryable, why := o.why, http := http, nextAttempt := Some(now + Backoff(r.attempts)))
  }

  function WriteReceipt(s: Run, m: Message, r: Receipt): Run {
    if s.fuel == 0 then s
    else s.(disk := s.disk.(receipts := s.disk.receipts[m := r]), fuel := s.fuel - 1)
  }

  function WriteSubject(s: Run, m: Message): Run {
    if s.fuel == 0 then s
    else s.(disk := s.disk.(subjects := s.disk.subjects[m.SubjectOf() := m]), fuel := s.fuel - 1)
  }

  function Send(s: Run, m: Message, now: Time, epoch: nat, reply: Reply): Run {
    if s.fuel == 0 then s
    else Run(s.disk, s.calls + [Call(m, now, reply, epoch)], s.attempted + 1, if reply.Usable() then s.fuel - 1 else 0)
  }

  /** One attempt: receipt, pointer, call, receipt. */
  function AttemptOnce(s: Run, m: Message, r: Receipt, now: Time, epoch: nat, reply: Reply): Run
    requires r.attempts > 0
  {
    var sent := Send(WriteSubject(WriteReceipt(s, m, r), m), m, now, epoch, reply);
    if reply.Usable() then WriteReceipt(sent, m, Settle(r, reply.outcome, now)) else sent
  }

  /** One iteration of the candidate loop. The sender's next reply is `sender(n)`, `n` being the
      number of calls ever made. */
  function Carry(s: Run, c: Candidate, now: Time, epoch: nat, sender: nat -> Reply): Run {
    if s.fuel == 0 then s
    else match Decide(s.disk, c, now, s.attempted)
      case Leave => s
      case Abort => s.(fuel := 0)
      case Record(r) => WriteReceipt(s, c.message, r)
      case Attempt(r) => AttemptOnce(s, c.message, r, now, epoch, sender(|s.calls|))
  }

  function CarryAll(s: Run, candidates: seq<Candidate>, now: Time, epoch: nat, sender: nat -> Reply): Run {
    if candidates == [] then s
    else Carry(CarryAll(s, candidates[..|candidates| - 1], now, epoch, sender),
               candidates[|candidates| - 1], now, epoch, sender)
  }

  /** The calls made for one message. */
  function CallsFor(calls: seq<Call>, m: Message): seq<Call> {
    if calls == [] then []
    else CallsFor(calls[..|calls| - 1], m) + if calls[|calls| - 1].message == m then [calls[|calls| - 1]] else []
  }

  ghost predicate AllProvenUnsent(h: seq<Call>) {
    forall i :: 0 <= i < |h| ==> h[i].reply.ProvenUnsent()
  }

  /** Each attempt lies in the event's life and waits out the back-off of the one before. */
  ghost predicate Timed(m: Message, h: seq<Call>) {
    && (forall i :: 0 <= i < |h| ==> 0 <= h[i].at - m.At() < EVENT_TTL)
    && (forall i :: 0 < i < |h| ==> h[i].at >= h[i - 1].at + Backoff(i))
  }

  /** How the calls made for a message and its receipt hang together. */
  ghost predicate Matches(m: Message, h: seq<Call>, r: Receipt) {
    && |h| <= r.attempts <= MAX_ATTEMPTS
    && match r.status
       case InFlight | Unknown => r.attempts > 0 && |h| >= r.attempts - 1 && AllProvenUnsent(h[..r.attempts - 1])
       case FailedRetryable =>
         && 0 < r.attempts < MAX_ATTEMPTS && |h| == r.attempts && AllProvenUnsent(h)
         && r.nextAttempt == Some(h[|h| - 1].at + Backoff(r.attempts))
       case _ =>
         && (forall i :: 0 <= i < |h| - 1 ==> h[i].reply.ProvenUnsent())
         && (h != [] ==> !h[|h| - 1].reply.Uncertain())
  }

  ghost predicate RecordedAs(d: Disk, m: Message, h: seq<Call>) {
    (if m in d.receipts then Matches(m, h, d.receipts[m]) else h == []) && Timed(m, h)
  }

  ghost predicate Recorded(d: Disk, calls: seq<Call>, m: Message) {
    RecordedAs(d, m, CallsFor(calls, m))
  }

  /** The subject pointer names the message and its receipt says nobody knows. */
  predicate Quarantined(d: Disk, m: Message) {
    && m.SubjectOf() in d.subjects && d.subjects[m.SubjectOf()] == m
    && m in d.receipts && (d.receipts[m].status == InFlight || d.receipts[m].status == Unknown)
  }

  /** The sender was called for the attempt the receipt records, and the receipt does not say how it went:
      the call did not return, its result was lost before it was written, or its result was Unknown. */
  predicate InDoubt(d: Disk, calls: seq<Call>, m: Message) {
    && m in d.receipts && (d.receipts[m].status == InFlight || d.receipts[m].status == Unknown)
    && CallsFor(calls, m) != [] && |CallsFor(calls, m)| == d.receipts[m].attempts
  }

  /** The message of the last call made for a subject. */
  function LastOf(calls: seq<Call>, subject: Subject): Option<Message> {
    if calls == [] then None
    else if calls[|calls| - 1].message.SubjectOf() == subject then Some(calls[|calls| - 1].message)
    else LastOf(calls[..|calls| - 1], subject)
  }

  /** A message in doubt holds the pointer of its subject and is the last the subject was called for. */
  ghost predicate QuarantineHolds(d: Disk, calls: seq<Call>) {
    forall m :: InDoubt(d, calls, m) ==> Quarantined(d, m) && LastOf(calls, m.SubjectOf()) == Some(m)
  }

  /** What every action keeps, whatever the sender does and wherever the run stops. */
  ghost predicate Sound(d: Disk, calls: seq<Call>) {
    && (forall m :: Recorded(d, calls, m))
    && QuarantineHolds(d, calls)
  }
}
