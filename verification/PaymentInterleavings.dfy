/**
 * The same bound if updates were processed concurrently, so that the steps of different handlers interleave: a
 * discipline that suffices, and a run that breaks the bound without it.
 */
module PaymentInterleavings {
  import opened Numbers
  import opened PaymentBounds
  import opened PaymentLedger
  import opened PaymentRuns
  import opened Runs

  /** The members whose payment is under way. */
  function Paying(s: State): set<Member> {
    s.reading.Keys + s.awaiting.Keys
  }

  /**
   * Members pay one at a time, from reading the debt to the photo, no confirmation is marked between the two readings
   * of a payment, and the accrued total does not fall.
   */
  predicate OneAtATime(s: State, e: Step) {
    match e
    case ReadDue(m) => Paying(s) <= {m}
    case Mark(_) => s.reading == map[]
    case Accrue(total) => s.accrued <= total
    case _ => true
  }

  ghost predicate AtMostOne(members: set<Member>) {
    forall m, n :: m in members && n in members ==> m == n
  }

  ghost predicate Reserved(s: State) {
    && AtMostOne(Paying(s))
    && Paid(s.proofs) + Pending(s.proofs) <= s.accrued
    && (forall m :: m in s.reading ==> s.reading[m].Debt() <= Max(0, s.accrued - Paid(s.proofs)))
    && forall m :: m in s.awaiting ==>
         PendingCount(s.proofs) == 0 && Paid(s.proofs) + s.awaiting[m].Amount() <= s.accrued
  }

  lemma PhotoKeepsReserved(s: State, m: Member)
    requires Sound(s) && Reserved(s) && m in s.awaiting
    ensures Reserved(Apply(s, SendPhoto(m)))
  {
    NonePending(s.proofs);
    SubmitAddsTheAmount(s.proofs, s.awaiting[m].Amount());
    forall n | n in s.awaiting ensures n == m {
      assert n in Paying(s) && m in Paying(s);
    }
  }

  lemma MarkKeepsReserved(s: State, h: Handler)
    requires Sound(s) && Reserved(s) && Confirms(s, h) && s.reading == map[]
    ensures Reserved(Apply(s, Mark(h)))
  {
    SomePending(s.proofs, s.confirming[h].proof);
    ConfirmMovesTheAmount(s.proofs, s.confirming[h].proof);
  }

  lemma RejectKeepsReserved(s: State, i: nat)
    requires Sound(s) && Reserved(s) && IsSubmitted(s.proofs, i)
    ensures Reserved(Apply(s, Reject(i)))
  {
    SomePending(s.proofs, i);
    RejectReleasesTheAmount(s.proofs, i);
  }

  lemma OfferKeepsReserved(s: State, m: Member)
    requires Reserved(s)
    ensures Reserved(Apply(s, Offer(m)))
  {
    CountIsNatural(s.proofs);
  }

  lemma AbandonKeepsReserved(s: State, m: Member)
    requires Reserved(s)
    ensures Reserved(Apply(s, Abandon(m)))
  {
  }

  lemma StepKeepsReserved(s: State, e: Step)
    requires Sound(s) && Reserved(s) && OneAtATime(s, e)
    ensures Reserved(Apply(s, e))
  {
    match e
    case ReadDue(m) =>
      PaidIsNotNegative(s);
    case Offer(m) => OfferKeepsReserved(s, m);
    case Abandon(m) => AbandonKeepsReserved(s, m);
    case SendPhoto(m) =>
      if m in s.awaiting {
        PhotoKeepsReserved(s, m);
      }
    case Mark(h) =>
      if Confirms(s, h) {
        MarkKeepsReserved(s, h);
      }
    case Reject(i) =>
      if IsSubmitted(s.proofs, i) {
        RejectKeepsReserved(s, i);
      }
    case _ =>
  }

  lemma {:induction false} RunKeepsReserved(s: State, steps: seq<Step>)
    requires Sound(s) && Reserved(s) && Orderly(Apply, s, steps, OneAtATime)
    ensures Reserved(Run(s, steps))
    decreases |steps|
  {
    if steps != [] {
      StepKeepsSound(s, steps[0]);
      StepKeepsReserved(s, steps[0]);
      RunKeepsReserved(Apply(s, steps[0]), steps[1..]);
    }
  }

  /** When members pay one at a time, what is paid, pending or asked for never exceeds what is accrued. */
  lemma NeverMoreThanAccrued(steps: seq<Step>)
    requires Orderly(Apply, START, steps, OneAtATime)
    ensures var s := Run(START, steps);
            && Paid(s.proofs) + Pending(s.proofs) <= s.accrued
            && forall m :: m in s.awaiting ==> Paid(s.proofs) + Pending(s.proofs) + s.awaiting[m].Amount() <= s.accrued
  {
    RunKeepsReserved(START, steps);
    LedgerBalances(steps);
    NonePending(Run(START, steps).proofs);
  }

  /** A proof of the whole debt is under review, its confirmation fetched and the bill read. */
  function UnderReview(debt: int): State {
    START.(accrued := debt, proofs := [Proof(debt, 0, Submitted)], confirming := map[1 := Ready(0, debt, 0)])
  }

  const PAY_AND_REVIEW: seq<Step> :=
    [ReadDue(1)] + ([Offer(1)] + ([SendPhoto(1)] + ([Fetch(1, 0)] + ([ReadBill(1)] + []))))

  lemma UnderReviewIsReached(debt: int)
    requires debt > 0
    ensures Run(START, [Accrue(debt)] + PAY_AND_REVIEW) == UnderReview(debt)
  {
    var p := Proof(debt, 0, Submitted);
    OneProof(p, PaidBy);
    var s0 := START.(accrued := debt);
    var s1 := s0.(reading := map[1 := Reading(debt, 0)]);
    var s2 := s0.(awaiting := map[1 := Note(Reading(debt, 0), 0)]);
    var s3 := s0.(proofs := [p]);
    var s4 := s3.(confirming := map[1 := Fetched(0)]);
    assert Apply(s0, ReadDue(1)) == s1;
    assert Apply(s1, Offer(1)) == s2 by { assert s1.reading - {1} == map[]; }
    assert Apply(s2, SendPhoto(1)) == s3 by { assert s2.awaiting - {1} == map[]; }
    assert Apply(s3, Fetch(1, 0)) == s4;
    assert Apply(s4, ReadBill(1)) == UnderReview(debt);
    RunOne(START, Accrue(debt), PAY_AND_REVIEW);
    RunOne(s0, ReadDue(1), [Offer(1)] + ([SendPhoto(1)] + ([Fetch(1, 0)] + ([ReadBill(1)] + []))));
    RunOne(s1, Offer(1), [SendPhoto(1)] + ([Fetch(1, 0)] + ([ReadBill(1)] + [])));
    RunOne(s2, SendPhoto(1), [Fetch(1, 0)] + ([ReadBill(1)] + []));
    RunOne(s3, Fetch(1, 0), [ReadBill(1)] + []);
    RunOne(s4, ReadBill(1), []);
  }

  const CONFIRMED_IN_BETWEEN: seq<Step> := [ReadDue(1)] + ([Mark(1)] + ([Offer(1)] + ([SendPhoto(1)] + [])))

  lemma {:induction false} RunAppend(s: State, before: seq<Step>, after: seq<Step>)
    ensures Run(s, before + after) == Run(Run(s, before), after)
    decreases |before|
  {
    if before == [] {
      assert before + after == after;
    } else {
      assert (before + after)[1..] == before[1..] + after;
      RunAppend(Apply(s, before[0]), before[1..], after);
    }
  }

  /**
   * A confirmation marked between the two readings of one pay handler would let a single member submit the settled debt
   * again. The bot takes one update at a time, so this needs concurrent processing of updates.
   */
  lemma ConfirmedDebtIsSubmittedAgain(debt: int)
    requires debt > 0
    ensures var s := Run(START, [Accrue(debt)] + PAY_AND_REVIEW + CONFIRMED_IN_BETWEEN);
            s.accrued == debt && Paid(s.proofs) == debt && Pending(s.proofs) == debt
  {
    UnderReviewIsReached(debt);
    RunAppend(START, [Accrue(debt)] + PAY_AND_REVIEW, CONFIRMED_IN_BETWEEN);
    var s0 := UnderReview(debt);
    var p, q := Proof(debt, 0, Submitted), Proof(debt, debt, Confirmed);
    OneProof(p, PaidBy);
    OneProof(q, SubmittedBy);
    TwoProofs(q, p, PaidBy);
    TwoProofs(q, p, PendingBy);
    var row := SnapshotFor(0, debt, debt, 0);
    var s1 := s0.(reading := map[1 := Reading(debt, 0)]);
    var s2 := s1.(proofs := [q], snapshots := [row], confirming := map[]);
    var s3 := s2.(reading := map[], awaiting := map[1 := Note(Reading(debt, 0), 1)]);
    var s4 := s3.(proofs := [q, p], awaiting := map[]);
    assert Apply(s0, ReadDue(1)) == s1;
    assert Apply(s1, Mark(1)) == s2 by {
      assert s1.confirming - {1} == map[];
      assert ConfirmAt([p], 0) == [q];
      assert [] + [row] == [row];
    }
    assert Apply(s2, Offer(1)) == s3 by { assert s2.reading - {1} == map[]; }
    assert Apply(s3, SendPhoto(1)) == s4 by { assert s3.awaiting - {1} == map[]; assert [q] + [p] == [q, p]; }
    RunOne(s0, ReadDue(1), [Mark(1)] + ([Offer(1)] + ([SendPhoto(1)] + [])));
    RunOne(s1, Mark(1), [Offer(1)] + ([SendPhoto(1)] + []));
    RunOne(s2, Offer(1), [SendPhoto(1)] + []);
    RunOne(s3, SendPhoto(1), []);
  }
}
