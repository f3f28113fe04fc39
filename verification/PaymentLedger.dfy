/**
 * The payment proofs of one partner: members read what is due, are asked for a photo and send it; admins confirm or
 * reject. Every read and every database transaction is a step of its own, and the steps of different handlers
 * interleave.
 */
module PaymentLedger {
  import opened BillingAmounts
  import opened Numbers
  import opened Options

  type Member = int
  type Handler = int

  datatype Status = Submitted | Confirmed | Rejected

  datatype Proof = Proof(amountDueSnapshot: int, amountConfirmed: int, status: Status)

  /** The row stored with a confirmed payment. */
  datatype Snapshot = Snapshot(proof: nat, totalFee: int, paidBefore: int, confirmedAmount: int, amountDueAfter: int)

  /** What was read of the bill when a member pressed pay. */
  datatype Reading = Reading(total: int, paid: int) {
    function Debt(): int {
      Due(total, paid)
    }
  }

  /** The amount a member was asked for comes from a reading; `sent` proofs existed when the member was asked. */
  datatype Note = Note(read: Reading, sent: nat) {
    function Amount(): int {
      read.Debt()
    }
  }

  /** A confirmation under way: the proof was found submitted, then the bill was read. */
  datatype Confirming = Fetched(proof: nat) | Ready(proof: nat, total: int, paid: int)

  /** The bill's total, the tables, what was noted for members, and the local variables of the handlers under way. */
  datatype State = State(
    accrued: int, proofs: seq<Proof>, snapshots: seq<Snapshot>,
    reading: map<Member, Reading>, awaiting: map<Member, Note>, confirming: map<Handler, Confirming>)

  const START := State(0, [], [], map[], map[], map[])

  // ---- Sums over the proofs ----

  function Tally(proofs: seq<Proof>, weight: Proof -> int): int {
    if proofs == [] then 0 else Tally(proofs[..|proofs| - 1], weight) + weight(proofs[|proofs| - 1])
  }

  /** What a confirmed proof counts for: the confirmed amount, or the noted one when none was stored. */
  function PaidBy(p: Proof): int {
    if p.status != Confirmed then 0 else if p.amountConfirmed != 0 then p.amountConfirmed else p.amountDueSnapshot
  }

  function PendingBy(p: Proof): int {
    if p.status == Submitted then p.amountDueSnapshot else 0
  }

  function SubmittedBy(p: Proof): int {
    if p.status == Submitted then 1 else 0
  }

  function ConfirmedBy(p: Proof): int {
    if p.status == Confirmed then 1 else 0
  }

  /** `_confirmed_paid_for_partner` */
  function Paid(proofs: seq<Proof>): int {
    Tally(proofs, PaidBy)
  }

  function Pending(proofs: seq<Proof>): int {
    Tally(proofs, PendingBy)
  }

  /** `_pending_payment_count` */
  function PendingCount(proofs: seq<Proof>): int {
    Tally(proofs, SubmittedBy)
  }

  method TallyOf(proofs: seq<Proof>, weight: Proof -> int) returns (total: int)
    ensures total == Tally(proofs, weight)
  {
    total := 0;
    for i := 0 to |proofs|
      invariant total == Tally(proofs[..i], weight)
    {
      assert proofs[..i + 1][..i] == proofs[..i];
      total := total + weight(proofs[i]);
    }
    assert proofs[..|proofs|] == proofs;
  }

  lemma {:induction false} TallyUpdate(proofs: seq<Proof>, i: nat, p: Proof, weight: Proof -> int)
    requires i < |proofs|
    ensures Tally(proofs[i := p], weight) == Tally(proofs, weight) - weight(proofs[i]) + weight(p)
  {
    var n := |proofs| - 1;
    if i == n {
      assert proofs[i := p][..n] == proofs[..n];
    } else {
      assert proofs[i := p][..n] == proofs[..n][i := p];
      TallyUpdate(proofs[..n], i, p, weight);
    }
  }

  lemma {:induction false} TallyBounds(proofs: seq<Proof>, weight: Proof -> int, i: nat)
    requires i < |proofs| && forall p :: p in proofs ==> weight(p) >= 0
    ensures Tally(proofs, weight) >= weight(proofs[i])
  {
    var n := |proofs| - 1;
    if n > 0 {
      TallyBounds(proofs[..n], weight, if i < n then i else 0);
      assert weight(proofs[..n][0]) >= 0;
    }
  }

  // ---- The transactions ----

  function Submit(proofs: seq<Proof>, amount: int): seq<Proof> {
    proofs + [Proof(amount, 0, Submitted)]
  }

  function ConfirmAt(proofs: seq<Proof>, i: nat): seq<Proof>
    requires i < |proofs|
  {
    proofs[i := proofs[i].(status := Confirmed, amountConfirmed := proofs[i].amountDueSnapshot)]
  }

  function RejectAt(proofs: seq<Proof>, i: nat): seq<Proof>
    requires i < |proofs|
  {
    proofs[i := proofs[i].(status := Rejected)]
  }

  function SnapshotFor(i: nat, amount: int, total: int, paid: int): Snapshot {
    Snapshot(i, total, paid, amount, Max(0, total - paid - amount))
  }

  predicate IsSubmitted(proofs: seq<Proof>, i: nat) {
    i < |proofs| && proofs[i].status == Submitted
  }

  datatype Step =
    | Accrue(total: int)
    | ReadDue(member: Member)
    | Offer(member: Member)
    | SendPhoto(member: Member)
    | Abandon(member: Member)
    | Fetch(handler: Handler, proof: nat)
    | ReadBill(handler: Handler)
    | Mark(handler: Handler)
    | Reject(proof: nat)

  /** One step; a handler that is not at that point, or whose check fails, changes nothing. */
  function Apply(s: State, e: Step): State {
    match e
    case Accrue(total) => s.(accrued := total)
    case ReadDue(m) => s.(reading := s.reading[m := Reading(s.accrued, Paid(s.proofs))])
    case Offer(m) =>
      if m !in s.reading then s
      else if s.reading[m].Debt() <= 0 || PendingCount(s.proofs) > 0 then s.(reading := s.reading - {m})
      else s.(awaiting := s.awaiting[m := Note(s.reading[m], |s.proofs|)], reading := s.reading - {m})
    case SendPhoto(m) =>
      if m !in s.awaiting then s
      else s.(proofs := Submit(s.proofs, s.awaiting[m].Amount()), awaiting := s.awaiting - {m})
    case Abandon(m) => s.(awaiting := s.awaiting - {m})
    case Fetch(h, i) => if IsSubmitted(s.proofs, i) then s.(confirming := s.confirming[h := Fetched(i)]) else s
    case ReadBill(h) =>
      if h !in s.confirming || s.confirming[h].Ready? then s
      else s.(confirming := s.confirming[h := Ready(s.confirming[h].proof, s.accrued, Paid(s.proofs))])
    case Mark(h) =>
      if h !in s.confirming || s.confirming[h].Fetched? then s
      else
        var c, rest := s.confirming[h], s.(confirming := s.confirming - {h});
        if !IsSubmitted(s.proofs, c.proof) then rest
        else rest.(proofs := ConfirmAt(s.proofs, c.proof),
                   snapshots := s.snapshots
                                + [SnapshotFor(c.proof, s.proofs[c.proof].amountDueSnapshot, c.total, c.paid)])
    case Reject(i) => if IsSubmitted(s.proofs, i) then s.(proofs := RejectAt(s.proofs, i)) else s
  }

  function Run(s: State, steps: seq<Step>): State
    decreases |steps|
  {
    if steps == [] then s else Run(Apply(s, steps[0]), steps[1..])
  }

  // ---- The handlers' transactions as the source writes them ----

  /** What is stored of the notes: the amounts. */
  function Amounts(notes: map<Member, Note>): map<Member, int> {
    map m | m in notes :: notes[m].Amount()
  }

  lemma AmountsChange(notes: map<Member, Note>, m: Member, n: Note)
    ensures Amounts(notes[m := n]) == Amounts(notes)[m := n.Amount()]
    ensures Amounts(notes - {m}) == Amounts(notes) - {m}
  {
  }

  /** The member's debt was read, and this is what the pay handler goes on with. */
  predicate IsOffer(s: State, m: Member, amountDue: int, pending: int) {
    m in s.reading && s.reading[m].Debt() == amountDue && PendingCount(s.proofs) == pending
  }

  class BillingDesk {
    var proofs: seq<Proof>
    var snapshots: seq<Snapshot>
    var awaiting: map<Member, int>

    /** The tables and the noted amounts are those of the state. */
    ghost predicate Shows(s: State)
      reads this
    {
      proofs == s.proofs && snapshots == s.snapshots && awaiting == Amounts(s.awaiting)
    }

    /** `cb_partner_billing_pay`, once the snapshot was read: the debt, and how many proofs were pending. */
    method OfferPayment(member: Member, amountDue: int, pendingPaymentCount: int) returns (offered: bool)
      modifies this`awaiting
      ensures offered == (amountDue > 0 && pendingPaymentCount <= 0)
      ensures awaiting == if offered then old(awaiting)[member := amountDue] else old(awaiting)
      ensures forall s: State :: old(Shows(s)) && IsOffer(s, member, amountDue, pendingPaymentCount) ==>
              Shows(Apply(s, Offer(member)))
    {
      forall s: State | member in s.reading {
        AmountsChange(s.awaiting, member, Note(s.reading[member], |s.proofs|));
      }
      if amountDue <= 0 || pendingPaymentCount > 0 {
        return false;
      }
      awaiting := awaiting[member := amountDue];
      offered := true;
    }

    /** `payment_photo_router` */
    method SavePhoto(member: Member) returns (proofId: Option<nat>)
      modifies this`proofs, this`awaiting
      ensures proofId == if member in old(awaiting) then Some(|old(proofs)|) else None
      ensures proofs == if member in old(awaiting) then Submit(old(proofs), old(awaiting)[member]) else old(proofs)
      ensures awaiting == old(awaiting) - {member}
      ensures forall s: State :: old(Shows(s)) ==> Shows(Apply(s, SendPhoto(member)))
    {
      forall s: State | member in s.awaiting {
        AmountsChange(s.awaiting, member, s.awaiting[member]);
      }
      if member !in awaiting {
        assert awaiting - {member} == awaiting;
        return None;
      }
      proofId := Some(|proofs|);
      proofs := proofs + [Proof(awaiting[member], 0, Submitted)];
      awaiting := awaiting - {member};
    }

    method ConfirmedPaid() returns (paid: int)
      ensures paid == Paid(proofs)
    {
      paid := TallyOf(proofs, PaidBy);
    }

    /** `mark` of `cb_partner_billing_confirm`, with what was read of the bill before. */
    method MarkConfirmed(i: nat, totalFee: int, paidBefore: int) returns (done: bool)
      modifies this`proofs, this`snapshots
      ensures done == IsSubmitted(old(proofs), i)
      ensures proofs == if done then ConfirmAt(old(proofs), i) else old(proofs)
      ensures snapshots == if done
                           then old(snapshots)
                                + [SnapshotFor(i, old(proofs)[i].amountDueSnapshot, totalFee, paidBefore)]
                           else old(snapshots)
      ensures forall s: State, h ::
                old(Shows(s)) && h in s.confirming && s.confirming[h] == Ready(i, totalFee, paidBefore) ==>
                Shows(Apply(s, Mark(h)))
    {
      if i >= |proofs| || proofs[i].status != Submitted {
        return false;
      }
      var confirmedAmount := proofs[i].amountDueSnapshot;
      var dueAfter :=
        if totalFee - paidBefore - confirmedAmount > 0 then totalFee - paidBefore - confirmedAmount else 0;
      snapshots := snapshots + [Snapshot(i, totalFee, paidBefore, confirmedAmount, dueAfter)];
      proofs := proofs[i := Proof(confirmedAmount, confirmedAmount, Confirmed)];
      done := true;
    }

    /** `mark` of `cb_partner_billing_reject` */
    method MarkRejected(i: nat) returns (done: bool)
      modifies this`proofs
      ensures done == IsSubmitted(old(proofs), i)
      ensures proofs == if done then RejectAt(old(proofs), i) else old(proofs)
      ensures forall s: State :: old(Shows(s)) ==> Shows(Apply(s, Reject(i)))
    {
      if i >= |proofs| || proofs[i].status != Submitted {
        return false;
      }
      proofs := proofs[i := proofs[i].(status := Rejected)];
      done := true;
    }
  }
}
