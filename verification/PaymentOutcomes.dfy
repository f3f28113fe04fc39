/** What a payment achieves: a confirmed photo settles the debt, a rejected one leaves it as it was. */
module PaymentOutcomes {
  import opened BillingAmounts
  import opened PaymentBounds
  import opened PaymentLedger
  import opened PaymentRuns

  /** A confirmed proof counts with the amount confirmed, or with the amount that was due if none was stored. */
  lemma ConfirmedProofsCount(proofs: seq<Proof>, p: Proof)
    ensures p.status == Confirmed && p.amountConfirmed != 0 ==> Paid(proofs + [p]) == Paid(proofs) + p.amountConfirmed
    ensures p.status == Confirmed && p.amountConfirmed == 0 ==> Paid(proofs + [p]) == Paid(proofs) + p.amountDueSnapshot
    ensures p.status != Confirmed ==> Paid(proofs + [p]) == Paid(proofs)
  {
    assert (proofs + [p])[..|proofs|] == proofs;
  }

  /** The member has been asked for all that is due. */
  function Asked(s: State, m: Member): State {
    s.(awaiting := s.awaiting[m := Note(Reading(s.accrued, Paid(s.proofs)), |s.proofs|)])
  }

  /** Pressing pay asks for the debt if there is one and no proof is under review; otherwise it changes nothing. */
  lemma PayAsksExactlyWhen(s: State, m: Member)
    requires s.reading == map[]
    ensures Handle(s, PressPay(m))
         == if Due(s.accrued, Paid(s.proofs)) > 0 && PendingCount(s.proofs) == 0 then Asked(s, m) else s
  {
    CountIsNatural(s.proofs);
    var read := Reading(s.accrued, Paid(s.proofs));
    assert s.reading[m := read] - {m} == s.reading;
  }

  /** A photo from a member who was asked is a submitted proof of that amount; any other is ignored. */
  lemma PhotoCountsExactlyWhen(s: State, m: Member)
    ensures var t := Handle(s, Photo(m));
            if m in s.awaiting then
              t.proofs == s.proofs + [Proof(s.awaiting[m].Amount(), 0, Submitted)] && t.awaiting == s.awaiting - {m}
            else t == s
  {
  }

  lemma LeavingForgets(s: State, m: Member)
    ensures Handle(Handle(s, Leave(m)), Photo(m)).proofs == s.proofs
  {
  }

  /** The state after a member has paid all that is due. */
  function Sent(s: State, m: Member): State {
    Handle(Handle(s, PressPay(m)), Photo(m))
  }

  lemma SentProof(s: State, m: Member)
    requires s.reading == map[] && Due(s.accrued, Paid(s.proofs)) > 0 && PendingCount(s.proofs) == 0
    ensures var t := Sent(s, m);
            && t.proofs == Submit(s.proofs, Due(s.accrued, Paid(s.proofs))) && IsSubmitted(t.proofs, |s.proofs|)
            && t.accrued == s.accrued && t.confirming == s.confirming && t.snapshots == s.snapshots
  {
    PayAsksExactlyWhen(s, m);
  }

  /** A confirmed photo settles the whole debt, and the stored row says so. */
  lemma ConfirmedDebtIsSettled(s: State, m: Member)
    requires Sound(s) && Idle(s) && Due(s.accrued, Paid(s.proofs)) > 0 && PendingCount(s.proofs) == 0
    ensures var t := Handle(Sent(s, m), PressConfirm(|s.proofs|));
            && Paid(t.proofs) == s.accrued && Due(t.accrued, Paid(t.proofs)) == 0 && PendingCount(t.proofs) == 0
            && t.snapshots == s.snapshots + [Snapshot(|s.proofs|, s.accrued, Paid(s.proofs),
                                                      s.accrued - Paid(s.proofs), 0)]
  {
    var sent, debt := Sent(s, m), Due(s.accrued, Paid(s.proofs));
    PaidIsNotNegative(s);
    SentProof(s, m);
    SubmitAddsTheAmount(s.proofs, debt);
    ConfirmClosesItsHandler(sent, |s.proofs|);
    ConfirmMovesTheAmount(sent.proofs, |s.proofs|);
  }

  /** A rejected photo leaves the debt as it was, and pressing pay asks for it again. */
  lemma RejectedDebtIsAskedAgain(s: State, m: Member)
    requires s.reading == map[] && Due(s.accrued, Paid(s.proofs)) > 0 && PendingCount(s.proofs) == 0
    ensures var t := Handle(Sent(s, m), PressReject(|s.proofs|));
            && Paid(t.proofs) == Paid(s.proofs) && PendingCount(t.proofs) == 0 && t.snapshots == s.snapshots
            && t.accrued == s.accrued && Handle(t, PressPay(m)) == Asked(t, m)
  {
    SentProof(s, m);
    SubmitAddsTheAmount(s.proofs, Due(s.accrued, Paid(s.proofs)));
    RejectReleasesTheAmount(Sent(s, m).proofs, |s.proofs|);
    assert Handle(Sent(s, m), PressReject(|s.proofs|)).reading == map[] by {
      PayAsksExactlyWhen(s, m);
    }
    PayAsksExactlyWhen(Handle(Sent(s, m), PressReject(|s.proofs|)), m);
  }

  /** A confirmation or rejection of anything but a submitted proof changes no proof, no stored row and nothing due. */
  lemma OnlySubmittedAreDecided(s: State, i: nat)
    requires s.confirming == map[] && !IsSubmitted(s.proofs, i)
    ensures Handle(s, PressReject(i)) == s && Handle(s, PressConfirm(i)).proofs == s.proofs
    ensures Handle(s, PressConfirm(i)).snapshots == s.snapshots
  {
    ConfirmClosesItsHandler(s, i);
  }
}
