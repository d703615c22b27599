/** Every action of every dispatch run keeps the receipts, pointers and calls sound. */
module WatchdogSafety {
  import opened Optional
  import opened WatchdogTypes
  import opened WatchdogDispatch

  /** An open gate means that no message of the subject is in doubt. */
  lemma OpenGateHasNoDoubt(d: Disk, calls: seq<Call>, m: Message)
    requires QuarantineHolds(d, calls) && GateOf(d, m.SubjectOf()) == Open
    ensures NoDoubtAbout(d, calls, m.SubjectOf())
  {
    forall k: Message | k.SubjectOf() == m.SubjectOf() ensures !InDoubt(d, calls, k) {
      assert InDoubt(d, calls, k) ==> Quarantined(d, k);
    }
  }

  ghost predicate NoDoubtAbout(d: Disk, calls: seq<Call>, subject: Subject) {
    forall k: Message :: k.SubjectOf() == subject ==> !InDoubt(d, calls, k)
  }

  lemma CallsForAppend(calls: seq<Call>, c: Call, m: Message)
    ensures CallsFor(calls + [c], m) == CallsFor(calls, m) + if c.message == m then [c] else []
  {
    assert (calls + [c])[..|calls + [c]| - 1] == calls;
  }

  lemma LastOfAppend(calls: seq<Call>, c: Call, subject: Subject)
    ensures LastOf(calls + [c], subject) ==
            if c.message.SubjectOf() == subject then Some(c.message) else LastOf(calls, subject)
  {
    assert (calls + [c])[..|calls + [c]| - 1] == calls;
  }

  /** Rewriting one receipt is sound when its own calls still match and it does not come into doubt. */
  lemma ReceiptWriteIsSound(d: Disk, calls: seq<Call>, m: Message, r: Receipt)
    requires Sound(d, calls)
    requires Matches(m, CallsFor(calls, m), r)
    requires InDoubt(d.(receipts := d.receipts[m := r]), calls, m) ==> InDoubt(d, calls, m)
    ensures Sound(d.(receipts := d.receipts[m := r]), calls)
  {
    var d' := d.(receipts := d.receipts[m := r]);
    forall k ensures Recorded(d', calls, k) {
      assert Recorded(d, calls, k);
    }
    forall k | InDoubt(d', calls, k) ensures Quarantined(d', k) && LastOf(calls, k.SubjectOf()) == Some(k) {
      assert InDoubt(d, calls, k);
    }
  }

  /** Moving a pointer is sound when nothing about the subject is in doubt. */
  lemma PointerWriteIsSound(d: Disk, calls: seq<Call>, m: Message)
    requires Sound(d, calls) && NoDoubtAbout(d, calls, m.SubjectOf())
    ensures Sound(d.(subjects := d.subjects[m.SubjectOf() := m]), calls)
  {
    var d' := d.(subjects := d.subjects[m.SubjectOf() := m]);
    forall k ensures Recorded(d', calls, k) {
      assert Recorded(d, calls, k);
    }
    forall k | InDoubt(d', calls, k) ensures Quarantined(d', k) && LastOf(calls, k.SubjectOf()) == Some(k) {
      assert InDoubt(d, calls, k);
    }
  }

  lemma CallIsRecorded(d: Disk, calls: seq<Call>, c: Call, k: Message)
    requires Recorded(d, calls, k) && c.message in d.receipts && d.receipts[c.message].status == InFlight
    requires |CallsFor(calls, c.message)| == d.receipts[c.message].attempts - 1
    requires Timed(c.message, CallsFor(calls, c.message) + [c])
    ensures Recorded(d, calls + [c], k)
  {
    var h := CallsFor(calls, k);
    CallsForAppend(calls, c, k);
    if k == c.message {
      MatchesAppend(k, h, c, d.receipts[k]);
      assert RecordedAs(d, k, h + [c]);
    } else {
      assert h + [] == h;
    }
  }

  lemma MatchesAppend(m: Message, h: seq<Call>, c: Call, r: Receipt)
    requires Matches(m, h, r) && r.status == InFlight && |h| == r.attempts - 1
    ensures Matches(m, h + [c], r)
  {
    assert (h + [c])[..|h|] == h == h[..|h|];
  }

  lemma CallKeepsQuarantine(d: Disk, calls: seq<Call>, c: Call, k: Message)
    requires QuarantineHolds(d, calls) && Quarantined(d, c.message) && NoDoubtAbout(d, calls, c.message.SubjectOf())
    requires InDoubt(d, calls + [c], k)
    ensures Quarantined(d, k) && LastOf(calls + [c], k.SubjectOf()) == Some(k)
  {
    CallsForAppend(calls, c, k);
    LastOfAppend(calls, c, k.SubjectOf());
    if k != c.message {
      assert InDoubt(d, calls, k);
    }
  }

  /** A call is sound once its in-flight receipt and its pointer are on disk. */
  lemma CallIsSound(d: Disk, calls: seq<Call>, c: Call)
    requires Sound(d, calls) && Quarantined(d, c.message) && NoDoubtAbout(d, calls, c.message.SubjectOf())
    requires d.receipts[c.message].status == InFlight
    requires |CallsFor(calls, c.message)| == d.receipts[c.message].attempts - 1
    requires Timed(c.message, CallsFor(calls, c.message) + [c])
    ensures Sound(d, calls + [c])
  {
    forall k ensures Recorded(d, calls + [c], k) {
      assert Recorded(d, calls, k);
      CallIsRecorded(d, calls, c, k);
    }
    forall k | InDoubt(d, calls + [c], k) ensures Quarantined(d, k) && LastOf(calls + [c], k.SubjectOf()) == Some(k) {
      CallKeepsQuarantine(d, calls, c, k);
    }
  }

  /** The receipt an attempt starts from: none, or a retryable one whose back-off is over. */
  lemma AttemptStartsFrom(s: Run, c: Candidate, now: Time, epoch: nat, reply: Reply)
    requires Sound(s.disk, s.calls)
    requires Decide(s.disk, c, now, s.attempted).Attempt?
    ensures var r, h := Decide(s.disk, c, now, s.attempted).receipt, CallsFor(s.calls, c.message);
      && r.status == InFlight && r.attempts == |h| + 1 <= MAX_ATTEMPTS && AllProvenUnsent(h)
      && Timed(c.message, h + [Call(c.message, now, reply, epoch)])
      && GateOf(s.disk, c.message.SubjectOf()) == Open
  {
    assert Recorded(s.disk, s.calls, c.message);
  }

  /** Settling the attempt's receipt keeps it matched with its calls. */
  lemma SettleMatches(m: Message, h: seq<Call>, c: Call, r: Receipt)
    requires c.reply.Usable()
    requires r.status == InFlight && r.attempts == |h| + 1 <= MAX_ATTEMPTS && AllProvenUnsent(h)
    ensures Matches(m, h + [c], Settle(r, c.reply.outcome, c.at))
  {
    assert (h + [c])[..|h|] == h;
  }

  /** The two writes before the call. */
  lemma PreparedIsSound(s: Run, c: Candidate, now: Time, r: Receipt)
    requires Sound(s.disk, s.calls) && Decide(s.disk, c, now, s.attempted) == Attempt(r)
    ensures var s1 := WriteReceipt(s, c.message, r);
      var s2 := WriteSubject(s1, c.message);
      && Sound(s1.disk, s1.calls) && Sound(s2.disk, s2.calls)
      && NoDoubtAbout(s2.disk, s2.calls, c.message.SubjectOf())
  {
    var m, h := c.message, CallsFor(s.calls, c.message);
    AttemptStartsFrom(s, c, now, 0, Interrupted);
    OpenGateHasNoDoubt(s.disk, s.calls, m);
    assert h[..r.attempts - 1] == h;
    ReceiptWriteIsSound(s.disk, s.calls, m, r);
    var s1 := WriteReceipt(s, m, r);
    assert forall k :: InDoubt(s1.disk, s.calls, k) ==> InDoubt(s.disk, s.calls, k);
    PointerWriteIsSound(s1.disk, s.calls, m);
    var s2 := WriteSubject(s1, m);
    assert forall k :: InDoubt(s2.disk, s.calls, k) ==> InDoubt(s1.disk, s.calls, k);
  }

  /** The call and the write after it. */
  lemma SettledIsSound(s: Run, m: Message, r: Receipt, now: Time, epoch: nat, reply: Reply)
    requires Sound(s.disk, s.calls) && NoDoubtAbout(s.disk, s.calls, m.SubjectOf()) && s.fuel > 0
    requires Quarantined(s.disk, m) && s.disk.receipts[m] == r && r.status == InFlight
    requires var h := CallsFor(s.calls, m);
      r.attempts == |h| + 1 <= MAX_ATTEMPTS && AllProvenUnsent(h) && Timed(m, h + [Call(m, now, reply, epoch)])
    ensures var sent := Send(s, m, now, epoch, reply);
      var settled := if reply.Usable() then WriteReceipt(sent, m, Settle(r, reply.outcome, now)) else sent;
      Sound(sent.disk, sent.calls) && Sound(settled.disk, settled.calls)
  {
    var h, call := CallsFor(s.calls, m), Call(m, now, reply, epoch);
    CallIsSound(s.disk, s.calls, call);
    if reply.Usable() {
      CallsForAppend(s.calls, call, m);
      SettleMatches(m, h, call, r);
      assert InDoubt(s.disk, s.calls + [call], m);
      ReceiptWriteIsSound(s.disk, s.calls + [call], m, Settle(r, reply.outcome, now));
    }
  }

  lemma AttemptIsSound(s: Run, c: Candidate, now: Time, epoch: nat, reply: Reply)
    requires Sound(s.disk, s.calls) && s.fuel > 0
    requires Decide(s.disk, c, now, s.attempted).Attempt?
    ensures var r := Decide(s.disk, c, now, s.attempted).receipt;
      r.attempts > 0 &&
      var after := AttemptOnce(s, c.message, r, now, epoch, reply);
      Sound(after.disk, after.calls)
  {
    var r := Decide(s.disk, c, now, s.attempted).receipt;
    AttemptStartsFrom(s, c, now, epoch, reply);
    PreparedIsSound(s, c, now, r);
    var ready := WriteSubject(WriteReceipt(s, c.message, r), c.message);
    if ready.fuel > 0 {
      SettledIsSound(ready, c.message, r, now, epoch, reply);
    }
  }

  /** A run that dies between the answer and the write of the receipt leaves its message in doubt, whatever
      the answer was. */
  lemma LostAnswerIsInDoubt(s: Run, c: Candidate, now: Time, epoch: nat, reply: Reply)
    requires Sound(s.disk, s.calls) && s.fuel == 3
    requires Decide(s.disk, c, now, s.attempted).Attempt?
    ensures var r := Decide(s.disk, c, now, s.attempted).receipt;
      r.attempts > 0 &&
      var after := AttemptOnce(s, c.message, r, now, epoch, reply);
      |after.calls| == |s.calls| + 1 && InDoubt(after.disk, after.calls, c.message)
  {
    AttemptStartsFrom(s, c, now, epoch, reply);
    CallsForAppend(s.calls, Call(c.message, now, reply, epoch), c.message);
  }

  /** A receipt is recorded without a call either to close an interrupted attempt, or to end a message
      that is not in flight. */
  lemma RecordShape(d: Disk, c: Candidate, now: Time, attempted: nat)
    requires Decide(d, c, now, attempted).Record?
    ensures var r, m := Decide(d, c, now, attempted).receipt, c.message;
      && r.attempts == (if m in d.receipts then d.receipts[m].attempts else 0)
      && if m in d.receipts && d.receipts[m].status == InFlight then r.status == Unknown
         else r.status.Final() && r.status != Unknown && (m in d.receipts ==> d.receipts[m].status == FailedRetryable)
  {
  }

  lemma EndedMatches(m: Message, h: seq<Call>, was: Receipt, r: Receipt)
    requires Matches(m, h, was) && r.attempts == was.attempts
    requires if was.status == InFlight then r.status == Unknown
             else was.status == FailedRetryable && r.status.Final() && r.status != Unknown
    ensures Matches(m, h, r)
  {
  }

  /** A receipt recorded without a call matches the calls already made, and comes into no doubt. */
  lemma RecordMatches(s: Run, c: Candidate, now: Time)
    requires Sound(s.disk, s.calls)
    requires Decide(s.disk, c, now, s.attempted).Record?
    ensures var r := Decide(s.disk, c, now, s.attempted).receipt;
      && Matches(c.message, CallsFor(s.calls, c.message), r)
      && (InDoubt(s.disk.(receipts := s.disk.receipts[c.message := r]), s.calls, c.message) ==>
          InDoubt(s.disk, s.calls, c.message))
  {
    assert Recorded(s.disk, s.calls, c.message);
    RecordShape(s.disk, c, now, s.attempted);
    var r := Decide(s.disk, c, now, s.attempted).receipt;
    if c.message in s.disk.receipts {
      EndedMatches(c.message, CallsFor(s.calls, c.message), s.disk.receipts[c.message], r);
    }
  }

  /** One candidate, with any sender and any crash point. */
  lemma CarryIsSound(s: Run, c: Candidate, now: Time, epoch: nat, sender: nat -> Reply)
    requires Sound(s.disk, s.calls)
    ensures var after := Carry(s, c, now, epoch, sender); Sound(after.disk, after.calls)
  {
    if s.fuel > 0 {
      match Decide(s.disk, c, now, s.attempted)
      case Record(r) =>
        RecordMatches(s, c, now);
        ReceiptWriteIsSound(s.disk, s.calls, c.message, r);
      case Attempt(r) => AttemptIsSound(s, c, now, epoch, sender(|s.calls|));
      case _ =>
    }
  }

  /** A whole dispatch run, for every order of candidates, sender and crash point. */
  lemma {:induction false} CarryAllIsSound(s: Run, candidates: seq<Candidate>, now: Time, epoch: nat,
                                           sender: nat -> Reply)
    requires Sound(s.disk, s.calls)
    ensures var after := CarryAll(s, candidates, now, epoch, sender); Sound(after.disk, after.calls)
  {
    if candidates != [] {
      var front, last := candidates[..|candidates| - 1], candidates[|candidates| - 1];
      CarryAllIsSound(s, front, now, epoch, sender);
      CarryIsSound(CarryAll(s, front, now, epoch, sender), last, now, epoch, sender);
    }
  }

  /** Nothing was sent about the subject of this message between two moments. */
  ghost predicate NoCallSince(before: seq<Call>, after: seq<Call>, m: Message) {
    before <= after && forall i :: |before| <= i < |after| ==> after[i].message.SubjectOf() != m.SubjectOf()
  }

  /** A doubt outlives every candidate: the message stays in doubt, and no call is made for its subject. */
  lemma CarryKeepsDoubt(s: Run, c: Candidate, now: Time, epoch: nat, sender: nat -> Reply, m: Message)
    requires Sound(s.disk, s.calls) && InDoubt(s.disk, s.calls, m)
    ensures var after := Carry(s, c, now, epoch, sender);
      && InDoubt(after.disk, after.calls, m)
      && NoCallSince(s.calls, after.calls, m)
  {
    var decision := Decide(s.disk, c, now, s.attempted);
    DoubtfulDecision(s.disk, s.calls, c, now, s.attempted, m);
    if decision.Attempt? {
      AttemptElsewhere(s, c.message, decision.receipt, now, epoch, sender(|s.calls|), m);
    }
  }

  lemma AttemptElsewhere(s: Run, k: Message, r: Receipt, now: Time, epoch: nat, reply: Reply, m: Message)
    requires InDoubt(s.disk, s.calls, m) && k.SubjectOf() != m.SubjectOf() && r.attempts > 0
    ensures var after := AttemptOnce(s, k, r, now, epoch, reply);
      InDoubt(after.disk, after.calls, m) && NoCallSince(s.calls, after.calls, m)
  {
    CallsForAppend(s.calls, Call(k, now, reply, epoch), m);
  }

  /** While a message is in doubt nothing is attempted for its subject, and its own receipt only turns Unknown. */
  lemma DoubtfulDecision(d: Disk, calls: seq<Call>, c: Candidate, now: Time, attempted: nat, m: Message)
    requires Sound(d, calls) && InDoubt(d, calls, m)
    ensures var decision := Decide(d, c, now, attempted);
      && (c.message.SubjectOf() == m.SubjectOf() ==> !decision.Attempt?)
      && (c.message == m && decision.Record? ==>
          decision.receipt.status == Unknown && decision.receipt.attempts == d.receipts[m].attempts)
  {
    assert Quarantined(d, m);
  }

  lemma {:induction false} CarryAllKeepsDoubt(s: Run, candidates: seq<Candidate>, now: Time, epoch: nat,
                                              sender: nat -> Reply, m: Message)
    requires Sound(s.disk, s.calls) && InDoubt(s.disk, s.calls, m)
    ensures var after := CarryAll(s, candidates, now, epoch, sender);
      && InDoubt(after.disk, after.calls, m)
      && NoCallSince(s.calls, after.calls, m)
  {
    if candidates != [] {
      var front, last := candidates[..|candidates| - 1], candidates[|candidates| - 1];
      CarryAllKeepsDoubt(s, front, now, epoch, sender, m);
      CarryAllIsSound(s, front, now, epoch, sender);
      CarryKeepsDoubt(CarryAll(s, front, now, epoch, sender), last, now, epoch, sender, m);
    }
  }

  lemma EmptyIsSound()
    ensures Sound(Disk(map[], map[]), [])
  {
  }

  /** The calls one run adds, and what each was allowed by. */
  ghost predicate AddedCalls(before: seq<Call>, after: seq<Call>, candidates: seq<Candidate>, now: Time, epoch: nat) {
    && before <= after
    && forall i :: |before| <= i < |after| ==>
         && after[i].at == now && after[i].epoch == epoch
         && Candidate(after[i].message, true, true) in candidates
  }

  lemma CarryCalls(s: Run, c: Candidate, now: Time, epoch: nat, sender: nat -> Reply)
    ensures var after := Carry(s, c, now, epoch, sender);
      && AddedCalls(s.calls, after.calls, [c], now, epoch)
      && |after.calls| - |s.calls| == after.attempted - s.attempted
      && (after.attempted == s.attempted || after.attempted == s.attempted + 1 <= MAX_SENDS_PER_RUN)
  {
  }

  /** A run calls the sender at most three times, at its own clock, and only for candidates that are
      current and permitted. */
  lemma {:induction false} CarryAllCalls(s: Run, candidates: seq<Candidate>, now: Time, epoch: nat,
                                         sender: nat -> Reply)
    ensures var after := CarryAll(s, candidates, now, epoch, sender);
      && AddedCalls(s.calls, after.calls, candidates, now, epoch)
      && |after.calls| - |s.calls| == after.attempted - s.attempted
      && (after.attempted == s.attempted || after.attempted <= MAX_SENDS_PER_RUN)
  {
    if candidates != [] {
      var front, last := candidates[..|candidates| - 1], candidates[|candidates| - 1];
      CarryAllCalls(s, front, now, epoch, sender);
      var middle := CarryAll(s, front, now, epoch, sender);
      CarryCalls(middle, last, now, epoch, sender);
      assert candidates == front + [last];
    }
  }

  /** A final receipt is never rewritten. */
  lemma {:induction false} FinalReceiptsStay(s: Run, candidates: seq<Candidate>, now: Time, epoch: nat,
                                             sender: nat -> Reply, m: Message)
    requires m in s.disk.receipts && s.disk.receipts[m].status.Final()
    ensures var d := CarryAll(s, candidates, now, epoch, sender).disk;
      m in d.receipts && d.receipts[m] == s.disk.receipts[m]
  {
    if candidates != [] {
      FinalReceiptsStay(s, candidates[..|candidates| - 1], now, epoch, sender, m);
    }
  }

  /** The retry limit is always reached by the third failed attempt itself: no receipt on disk ever
      leads to the branch that records it before a send. */
  lemma RetryLimitBranchIsDead(d: Disk, calls: seq<Call>, c: Candidate, now: Time, attempted: nat)
    requires Sound(d, calls)
    ensures Decide(d, c, now, attempted).Record? ==> Decide(d, c, now, attempted).receipt.why != RetryLimit
  {
    assert Recorded(d, calls, c.message);
  }

  /** The evidence `read_receipt` will ask for. */
  predicate Evidenced(o: Outcome, http: Option<int>) {
    && (o.status == Accepted ==> http == Some(200))
    && (o.why == RequestRejected ==> http == Some(400))
  }

  /** A settled receipt can be read back exactly when the outcome came with its HTTP evidence.
      `validate_outcome` does not ask for that evidence, so this is a condition on the sender. */
  lemma SettledReceiptIsReadable(r: Receipt, o: Outcome, now: Time)
    requires ValidOutcome(o) && Readable(r) && r.status == InFlight
    ensures Readable(Settle(r, o, now)) <==> Evidenced(o, if o.http.Some? then o.http else r.http)
  {
  }

  /** An acceptance without a status code passes `validate_outcome`, and its receipt stops every later
      run at that message before anything is sent. */
  lemma UnevidencedAcceptanceStopsDispatch(m: Message, r: Receipt, now: Time, s: Run, c: Candidate, later: Time,
                                           epoch: nat, sender: nat -> Reply)
    requires r.status == InFlight && Readable(r) && r.http == None
    requires c.message == m && m in s.disk.receipts
    requires s.disk.receipts[m] == Settle(r, Outcome(Accepted, ServiceAccepted, None), now)
    ensures ValidOutcome(Outcome(Accepted, ServiceAccepted, None))
    ensures Carry(s, c, later, epoch, sender) == s.(fuel := 0)
  {
  }

  ghost predicate AllReadable(d: Disk) {
    forall m :: m in d.receipts ==> Readable(d.receipts[m])
  }

  ghost predicate EvidencedSender(sender: nat -> Reply) {
    forall n: nat :: sender(n).Usable() ==> Evidenced(sender(n).outcome, sender(n).outcome.http)
  }

  lemma DecidedReceiptIsReadable(d: Disk, c: Candidate, now: Time, attempted: nat)
    requires AllReadable(d)
    ensures var decision := Decide(d, c, now, attempted);
      && decision != Abort
      && (decision.Record? ==> Readable(decision.receipt))
      && (decision.Attempt? ==> Readable(decision.receipt) && decision.receipt.status == InFlight)
  {
    assert c.message in d.receipts ==> Readable(d.receipts[c.message]);
  }

  lemma CarryKeepsReadable(s: Run, c: Candidate, now: Time, epoch: nat, sender: nat -> Reply)
    requires AllReadable(s.disk) && EvidencedSender(sender)
    ensures Decide(s.disk, c, now, s.attempted) != Abort
    ensures AllReadable(Carry(s, c, now, epoch, sender).disk)
  {
    DecidedReceiptIsReadable(s.disk, c, now, s.attempted);
    var decision := Decide(s.disk, c, now, s.attempted);
    if decision.Attempt? && sender(|s.calls|).Usable() {
      SettledReceiptIsReadable(decision.receipt, sender(|s.calls|).outcome, now);
    }
  }

  /** With a sender that supplies its evidence, as `bark_request` does, every receipt on disk can
      always be read back, so no run is ever stopped by its own receipts. */
  lemma {:induction false} ReceiptsStayReadable(s: Run, candidates: seq<Candidate>, now: Time, epoch: nat,
                                                sender: nat -> Reply)
    requires AllReadable(s.disk) && EvidencedSender(sender)
    ensures AllReadable(CarryAll(s, candidates, now, epoch, sender).disk)
  {
    if candidates != [] {
      var front, last := candidates[..|candidates| - 1], candidates[|candidates| - 1];
      ReceiptsStayReadable(s, front, now, epoch, sender);
      CarryKeepsReadable(CarryAll(s, front, now, epoch, sender), last, now, epoch, sender);
    }
  }
}
