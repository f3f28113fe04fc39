/** What every interleaving of the payment handlers' steps keeps, and when the stored debts are right. */
module PaymentRuns {
  import opened BillingAmounts
  import opened PaymentLedger
  import opened Runs

  // ---- Every run ----

  /** A settled proof never changes again, and no proof changes its amount or disappears. */
  ghost predicate Later(before: seq<Proof>, after: seq<Proof>) {
    |before| <= |after| && forall i :: 0 <= i < |before| ==>
      after[i].amountDueSnapshot == before[i].amountDueSnapshot &&
        (before[i].status != Submitted ==> after[i] == before[i])
  }

  /** A proof leaves `submitted` at most once, however the handlers interleave. */
  lemma {:induction false} ProofsSettleOnce(s: State, steps: seq<Step>)
    ensures Later(s.proofs, Run(s, steps).proofs)
    decreases |steps|
  {
    if steps != [] {
      StepIsLater(s, steps[0]);
      ProofsSettleOnce(Apply(s, steps[0]), steps[1..]);
    }
  }

  function SnapshotSum(snapshots: seq<Snapshot>): int {
    if snapshots == [] then 0
    else SnapshotSum(snapshots[..|snapshots| - 1]) + snapshots[|snapshots| - 1].confirmedAmount
  }

  /** Proofs carry a debt; a confirmed one was confirmed for exactly that. */
  predicate SoundProof(p: Proof) {
    p.amountDueSnapshot > 0 && (p.status == Confirmed ==> p.amountConfirmed == p.amountDueSnapshot)
  }

  ghost predicate Sound(s: State) {
    && (forall i :: 0 <= i < |s.proofs| ==> SoundProof(s.proofs[i]))
    && (forall m :: m in s.reading ==> WasRead(s, s.reading[m]))
    && (forall m :: m in s.awaiting ==>
        WasRead(s, s.awaiting[m].read) && s.awaiting[m].Amount() > 0 && s.awaiting[m].sent <= |s.proofs|)
    && forall h :: h in s.confirming ==> s.confirming[h].proof < |s.proofs|
  }

  /** A reading of the paid total is not ahead of the table. */
  predicate WasRead(s: State, r: Reading) {
    0 <= r.paid <= Paid(s.proofs)
  }

  /** The rows stored at confirmation are the confirmed proofs, one each, with their amounts. */
  ghost predicate Balanced(s: State) {
    && Matched(s.proofs, s.snapshots)
    && SnapshotSum(s.snapshots) == Paid(s.proofs)
    && |s.snapshots| == Tally(s.proofs, ConfirmedBy)
  }

  ghost predicate Matched(proofs: seq<Proof>, rows: seq<Snapshot>) {
    && (forall j, k :: 0 <= j < k < |rows| ==> rows[j].proof != rows[k].proof)
    && forall j :: 0 <= j < |rows| ==> IsConfirmedFor(proofs, rows[j])
  }

  predicate IsConfirmedFor(proofs: seq<Proof>, row: Snapshot) {
    row.proof < |proofs| && proofs[row.proof].status == Confirmed &&
      proofs[row.proof].amountConfirmed == row.confirmedAmount
  }

  lemma ConfirmMovesTheAmount(proofs: seq<Proof>, i: nat)
    requires IsSubmitted(proofs, i) && proofs[i].amountDueSnapshot > 0
    ensures Paid(ConfirmAt(proofs, i)) == Paid(proofs) + proofs[i].amountDueSnapshot
    ensures Pending(ConfirmAt(proofs, i)) == Pending(proofs) - proofs[i].amountDueSnapshot
    ensures PendingCount(ConfirmAt(proofs, i)) == PendingCount(proofs) - 1
    ensures Tally(ConfirmAt(proofs, i), ConfirmedBy) == Tally(proofs, ConfirmedBy) + 1
  {
  }

  lemma RejectReleasesTheAmount(proofs: seq<Proof>, i: nat)
    requires IsSubmitted(proofs, i)
    ensures Paid(RejectAt(proofs, i)) == Paid(proofs)
    ensures Pending(RejectAt(proofs, i)) == Pending(proofs) - proofs[i].amountDueSnapshot
    ensures PendingCount(RejectAt(proofs, i)) == PendingCount(proofs) - 1
    ensures Tally(RejectAt(proofs, i), ConfirmedBy) == Tally(proofs, ConfirmedBy)
  {
  }

  lemma SubmitAddsTheAmount(proofs: seq<Proof>, amount: int)
    ensures Paid(Submit(proofs, amount)) == Paid(proofs)
    ensures Pending(Submit(proofs, amount)) == Pending(proofs) + amount
    ensures PendingCount(Submit(proofs, amount)) == PendingCount(proofs) + 1
    ensures Tally(Submit(proofs, amount), ConfirmedBy) == Tally(proofs, ConfirmedBy)
  {
  }

  lemma StepIsLater(s: State, e: Step)
    ensures Later(s.proofs, Apply(s, e).proofs)
  {
  }

  lemma PaidStepGrows(s: State, e: Step)
    requires Sound(s)
    ensures Paid(s.proofs) <= Paid(Apply(s, e).proofs)
  {
    match e
    case SendPhoto(m) =>
      if m in s.awaiting {
        SubmitAddsTheAmount(s.proofs, s.awaiting[m].Amount());
      }
    case Mark(h) =>
      if h in s.confirming && s.confirming[h].Ready? && IsSubmitted(s.proofs, s.confirming[h].proof) {
        ConfirmMovesTheAmount(s.proofs, s.confirming[h].proof);
      }
    case Reject(i) =>
      if IsSubmitted(s.proofs, i) {
        RejectReleasesTheAmount(s.proofs, i);
      }
    case _ =>
  }

  lemma PaidIsNotNegative(s: State)
    requires Sound(s)
    ensures Paid(s.proofs) >= 0
  {
    if |s.proofs| > 0 {
      TallyBounds(s.proofs, PaidBy, 0);
    }
  }

  lemma ReadingsStaySound(s: State, e: Step)
    requires Sound(s)
    ensures var t := Apply(s, e);
            && (forall m :: m in t.reading ==> WasRead(t, t.reading[m]))
            && (forall m :: m in t.awaiting ==> WasRead(t, t.awaiting[m].read) && t.awaiting[m].Amount() > 0)
  {
    PaidStepGrows(s, e);
    PaidIsNotNegative(s);
    assert forall r: Reading :: WasRead(s, r) ==> WasRead(Apply(s, e), r);
  }

  lemma StepKeepsSound(s: State, e: Step)
    requires Sound(s)
    ensures Sound(Apply(s, e))
  {
    ReadingsStaySound(s, e);
    StepIsLater(s, e);
  }

  lemma MatchedGains(proofs: seq<Proof>, rows: seq<Snapshot>, i: nat, row: Snapshot)
    requires Matched(proofs, rows) && IsSubmitted(proofs, i) && IsConfirmedFor(ConfirmAt(proofs, i), row) &&
             row.proof == i
    ensures Matched(ConfirmAt(proofs, i), rows + [row])
  {
  }

  lemma ConfirmKeepsBalanced(s: State, h: Handler)
    requires Sound(s) && Balanced(s) && h in s.confirming && s.confirming[h].Ready? &&
             IsSubmitted(s.proofs, s.confirming[h].proof)
    ensures Balanced(Apply(s, Mark(h)))
  {
    var c := s.confirming[h];
    var row := SnapshotFor(c.proof, s.proofs[c.proof].amountDueSnapshot, c.total, c.paid);
    ConfirmMovesTheAmount(s.proofs, c.proof);
    MatchedGains(s.proofs, s.snapshots, c.proof, row);
  }

  lemma StepKeepsBalanced(s: State, e: Step)
    requires Sound(s) && Balanced(s)
    ensures Balanced(Apply(s, e))
  {
    StepIsLater(s, e);
    match e
    case SendPhoto(m) =>
      if m in s.awaiting {
        SubmitAddsTheAmount(s.proofs, s.awaiting[m].Amount());
      }
    case Mark(h) =>
      if h in s.confirming && s.confirming[h].Ready? && IsSubmitted(s.proofs, s.confirming[h].proof) {
        ConfirmKeepsBalanced(s, h);
      }
    case Reject(i) =>
      if IsSubmitted(s.proofs, i) {
        RejectReleasesTheAmount(s.proofs, i);
      }
    case _ =>
  }

  lemma {:induction false} RunKeepsBalanced(s: State, steps: seq<Step>)
    requires Sound(s) && Balanced(s)
    ensures Sound(Run(s, steps)) && Balanced(Run(s, steps))
    decreases |steps|
  {
    if steps != [] {
      StepKeepsSound(s, steps[0]);
      StepKeepsBalanced(s, steps[0]);
      RunKeepsBalanced(Apply(s, steps[0]), steps[1..]);
    }
  }

  /** Every run leaves one stored row for every confirmed proof, and the rows add up to what counts as paid. */
  lemma LedgerBalances(steps: seq<Step>)
    ensures Sound(Run(START, steps)) && Balanced(Run(START, steps))
  {
    RunKeepsBalanced(START, steps);
  }

  /** What is confirmed as paid only grows. */
  lemma {:induction false} PaidOnlyGrows(s: State, steps: seq<Step>)
    requires Sound(s)
    ensures Paid(s.proofs) <= Paid(Run(s, steps).proofs)
    decreases |steps|
  {
    if steps != [] {
      PaidStepGrows(s, steps[0]);
      StepKeepsSound(s, steps[0]);
      PaidOnlyGrows(Apply(s, steps[0]), steps[1..]);
    }
  }

  // ---- The debt stored with a confirmation ----

  predicate Confirms(s: State, h: Handler) {
    h in s.confirming && s.confirming[h].Ready? && IsSubmitted(s.proofs, s.confirming[h].proof)
  }

  /** The row a confirmation stores. */
  function StoredRow(s: State, h: Handler): Snapshot
    requires Confirms(s, h)
  {
    Apply(s, Mark(h)).snapshots[|s.snapshots|]
  }

  /**
   * The stored debt is the one a new reading of the same report gives, exactly when no other confirmation came between
   * reading and marking, or both readings find the debt settled.
   */
  lemma StoredDueExactlyWhen(s: State, h: Handler)
    requires Sound(s) && Confirms(s, h) && s.confirming[h].paid >= 0
    ensures var row, after := StoredRow(s, h), Paid(Apply(s, Mark(h)).proofs);
            row.amountDueAfter == Due(row.totalFee, after) <==>
            row.paidBefore == Paid(s.proofs) ||
              (row.totalFee <= row.paidBefore + row.confirmedAmount && row.totalFee <= after)
  {
    PaidIsNotNegative(s);
    ConfirmMovesTheAmount(s.proofs, s.confirming[h].proof);
  }

  /** Confirmations follow each other: one is fetched only when none is under way. */
  predicate Serial(s: State, e: Step) {
    e.Fetch? ==> s.confirming.Keys <= {e.handler}
  }

  ghost predicate ReadsAreFresh(s: State) {
    && (forall g, h :: g in s.confirming && h in s.confirming ==> g == h)
    && forall h :: h in s.confirming && s.confirming[h].Ready? ==> s.confirming[h].paid == Paid(s.proofs)
  }

  lemma SerialStepKeepsFresh(s: State, e: Step)
    requires Sound(s) && ReadsAreFresh(s) && Serial(s, e)
    ensures ReadsAreFresh(Apply(s, e))
  {
    match e
    case SendPhoto(m) =>
      if m in s.awaiting {
        SubmitAddsTheAmount(s.proofs, s.awaiting[m].Amount());
      }
    case Reject(i) =>
      if IsSubmitted(s.proofs, i) {
        RejectReleasesTheAmount(s.proofs, i);
      }
    case _ =>
  }

  lemma {:induction false} SerialRunKeepsFresh(s: State, steps: seq<Step>)
    requires Sound(s) && ReadsAreFresh(s) && Orderly(Apply, s, steps, Serial)
    ensures Sound(Run(s, steps)) && ReadsAreFresh(Run(s, steps))
    decreases |steps|
  {
    if steps != [] {
      StepKeepsSound(s, steps[0]);
      SerialStepKeepsFresh(s, steps[0]);
      SerialRunKeepsFresh(Apply(s, steps[0]), steps[1..]);
    }
  }

  /** With serialized confirmations every stored debt is the debt recomputed. */
  lemma SerialConfirmsStoreTheDue(steps: seq<Step>, h: Handler)
    requires Orderly(Apply, START, steps, Serial) && Confirms(Run(START, steps), h)
    ensures var s := Run(START, steps); var row := StoredRow(s, h);
            row.amountDueAfter == Due(row.totalFee, Paid(Apply(s, Mark(h)).proofs))
  {
    SerialRunKeepsFresh(START, steps);
    PaidIsNotNegative(Run(START, steps));
    StoredDueExactlyWhen(Run(START, steps), h);
  }
}
