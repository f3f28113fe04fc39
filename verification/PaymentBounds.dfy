/** When what is paid and pending stays within what is accrued. */
module PaymentBounds {
  import opened BillingAmounts
  import opened PaymentLedger
  import opened PaymentRuns
  import opened Runs

  predicate Within(s: State) {
    Paid(s.proofs) + Pending(s.proofs) <= s.accrued
  }

  /** The accrued total does not fall. */
  predicate Growing(s: State, e: Step) {
    e.Accrue? ==> s.accrued <= e.total
  }

  lemma {:induction false} NonePending(proofs: seq<Proof>)
    requires forall i :: 0 <= i < |proofs| ==> SoundProof(proofs[i])
    ensures PendingCount(proofs) >= 0 && Pending(proofs) >= 0
    ensures PendingCount(proofs) == 0 <==> Pending(proofs) == 0
  {
    if proofs != [] {
      NonePending(proofs[..|proofs| - 1]);
      assert SoundProof(proofs[|proofs| - 1]);
    }
  }

  lemma SomePending(proofs: seq<Proof>, i: nat)
    requires IsSubmitted(proofs, i)
    ensures PendingCount(proofs) >= 1
  {
    TallyBounds(proofs, SubmittedBy, i);
  }

  // ---- Steps that interleave ----

  /** What was confirmed or is pending since the member's debt was read is covered by what accrued since. */
  predicate Covered(s: State, m: Member)
    requires m in s.awaiting
  {
    var read := s.awaiting[m].read;
    (Paid(s.proofs) - read.paid) + Pending(s.proofs) <= s.accrued - read.total
  }

  /**
   * A photo keeps the bound exactly when what was confirmed or is pending since the debt was read is covered by what
   * accrued since; if nothing accrued, exactly when nothing is pending and nothing was confirmed since.
   */
  lemma PhotoStaysWithinExactlyWhen(s: State, m: Member)
    requires Sound(s) && m in s.awaiting
    ensures Within(Apply(s, SendPhoto(m))) <==> Covered(s, m)
    ensures s.accrued == s.awaiting[m].read.total ==>
              (Within(Apply(s, SendPhoto(m))) <==>
               PendingCount(s.proofs) == 0 && Paid(s.proofs) == s.awaiting[m].read.paid)
  {
    SubmitAddsTheAmount(s.proofs, s.awaiting[m].Amount());
    NonePending(s.proofs);
  }

  predicate CoveredPhoto(s: State, e: Step) {
    e.SendPhoto? && e.member in s.awaiting ==> Covered(s, e.member)
  }

  lemma StepStaysWithinExactlyWhen(s: State, e: Step)
    requires Sound(s) && Within(s) && Growing(s, e)
    ensures Within(Apply(s, e)) <==> CoveredPhoto(s, e)
  {
    match e
    case SendPhoto(m) =>
      if m in s.awaiting {
        PhotoStaysWithinExactlyWhen(s, m);
      }
    case Mark(h) =>
      if Confirms(s, h) {
        ConfirmMovesTheAmount(s.proofs, s.confirming[h].proof);
      }
    case Reject(i) =>
      if IsSubmitted(s.proofs, i) {
        RejectReleasesTheAmount(s.proofs, i);
      }
    case _ =>
  }

  /**
   * A run of interleaved steps stays within what is accrued exactly when every photo is covered at the moment it is
   * saved.
   */
  lemma {:induction false} StaysWithinExactlyWhen(s: State, steps: seq<Step>)
    requires Sound(s) && Within(s) && Orderly(Apply, s, steps, Growing)
    ensures Always(Apply, s, steps, Within) <==> Orderly(Apply, s, steps, CoveredPhoto)
    decreases |steps|
  {
    if steps != [] {
      StepKeepsSound(s, steps[0]);
      StepStaysWithinExactlyWhen(s, steps[0]);
      if CoveredPhoto(s, steps[0]) {
        StaysWithinExactlyWhen(Apply(s, steps[0]), steps[1..]);
      }
    }
  }

  // ---- Whole handlers, one after the other ----

  /** One update of the bot, or a new report from the backend. */
  datatype Update =
    | Report(total: int)
    | PressPay(member: Member)
    | Photo(member: Member)
    | Leave(member: Member)
    | PressConfirm(proof: nat)
    | PressReject(proof: nat)

  const ADMIN: Handler := 0

  /** The steps of the handler of an update. */
  function Steps(u: Update): seq<Step> {
    match u
    case Report(total) => [Accrue(total)]
    case PressPay(m) => [ReadDue(m), Offer(m)]
    case Photo(m) => [SendPhoto(m)]
    case Leave(m) => [Abandon(m)]
    case PressConfirm(i) => [Fetch(ADMIN, i), ReadBill(ADMIN), Mark(ADMIN)]
    case PressReject(i) => [Reject(i)]
  }

  /** The state after a whole handler, which runs to its end before the next update is taken. */
  function Handle(s: State, u: Update): State {
    match u
    case Report(total) => Apply(s, Accrue(total))
    case PressPay(m) => Apply(Apply(s, ReadDue(m)), Offer(m))
    case Photo(m) => Apply(s, SendPhoto(m))
    case Leave(m) => Apply(s, Abandon(m))
    case PressConfirm(i) => Apply(Apply(Apply(s, Fetch(ADMIN, i)), ReadBill(ADMIN)), Mark(ADMIN))
    case PressReject(i) => Apply(s, Reject(i))
  }

  function HandleAll(s: State, updates: seq<Update>): State
    decreases |updates|
  {
    if updates == [] then s else HandleAll(Handle(s, updates[0]), updates[1..])
  }

  function AllSteps(updates: seq<Update>): seq<Step> {
    if updates == [] then [] else Steps(updates[0]) + AllSteps(updates[1..])
  }

  lemma RunOne(s: State, e: Step, rest: seq<Step>)
    ensures Run(s, [e] + rest) == Run(Apply(s, e), rest)
  {
    assert ([e] + rest)[1..] == rest;
  }

  lemma RunTwo(s: State, d: Step, e: Step, rest: seq<Step>)
    ensures Run(s, [d, e] + rest) == Run(Apply(Apply(s, d), e), rest)
  {
    RunOne(s, d, [e] + rest);
    RunOne(Apply(s, d), e, rest);
    assert [d, e] + rest == [d] + ([e] + rest);
  }

  lemma RunThree(s: State, c: Step, d: Step, e: Step, rest: seq<Step>)
    ensures Run(s, [c, d, e] + rest) == Run(Apply(Apply(Apply(s, c), d), e), rest)
  {
    RunOne(s, c, [d, e] + rest);
    RunTwo(Apply(s, c), d, e, rest);
    assert [c, d, e] + rest == [c] + ([d, e] + rest);
  }

  lemma HandlerIsARun(s: State, u: Update, rest: seq<Step>)
    ensures Run(s, Steps(u) + rest) == Run(Handle(s, u), rest)
  {
    match u
    case PressPay(m) => RunTwo(s, ReadDue(m), Offer(m), rest);
    case PressConfirm(i) => RunThree(s, Fetch(ADMIN, i), ReadBill(ADMIN), Mark(ADMIN), rest);
    case _ => RunOne(s, Steps(u)[0], rest);
  }

  /**
   * Handlers one after the other are one of the interleavings of their steps, so what every run keeps holds of them.
   */
  lemma {:induction false} HandlersAreARun(s: State, updates: seq<Update>)
    ensures HandleAll(s, updates) == Run(s, AllSteps(updates))
    decreases |updates|
  {
    if updates != [] {
      HandlerIsARun(s, updates[0], AllSteps(updates[1..]));
      HandlersAreARun(Handle(s, updates[0]), updates[1..]);
    }
  }

  /** Between two updates no handler is under way, and everything sent before a member was asked is settled. */
  ghost predicate Idle(s: State) {
    && s.reading == map[] && s.confirming == map[]
    && forall m :: m in s.awaiting ==> AskedWhenSettled(s.proofs, s.awaiting[m])
  }

  ghost predicate AskedWhenSettled(proofs: seq<Proof>, n: Note) {
    && n.sent <= |proofs|
    && (forall i :: 0 <= i < n.sent ==> proofs[i].status != Submitted)
    && Paid(proofs[..n.sent]) == n.read.paid
  }

  lemma SettledStays(proofs: seq<Proof>, proofs': seq<Proof>, n: Note)
    requires AskedWhenSettled(proofs, n) && Later(proofs, proofs')
    ensures AskedWhenSettled(proofs', n)
  {
    assert proofs'[..n.sent] == proofs[..n.sent];
  }

  lemma NoneIsSubmitted(proofs: seq<Proof>)
    requires PendingCount(proofs) == 0
    ensures forall i :: 0 <= i < |proofs| ==> proofs[i].status != Submitted
  {
    forall i | 0 <= i < |proofs| ensures proofs[i].status != Submitted {
      if IsSubmitted(proofs, i) {
        SomePending(proofs, i);
      }
    }
  }

  lemma HandlerIsLater(s: State, u: Update)
    ensures Later(s.proofs, Handle(s, u).proofs)
  {
    ProofsSettleOnce(s, Steps(u));
    HandlerIsARun(s, u, []);
    assert Steps(u) + [] == Steps(u);
  }

  lemma PayKeepsIdle(s: State, m: Member)
    requires Idle(s)
    ensures Idle(Handle(s, PressPay(m)))
  {
    var t := Handle(s, PressPay(m));
    assert t.reading == map[] by {
      assert s.reading[m := Reading(s.accrued, Paid(s.proofs))] - {m} == map[];
    }
    if PendingCount(s.proofs) <= 0 {
      CountIsNatural(s.proofs);
      NoneIsSubmitted(s.proofs);
      assert s.proofs[..|s.proofs|] == s.proofs;
    }
  }

  lemma {:induction false} CountIsNatural(proofs: seq<Proof>)
    ensures PendingCount(proofs) >= 0
  {
    if proofs != [] {
      CountIsNatural(proofs[..|proofs| - 1]);
    }
  }

  lemma ConfirmClosesItsHandler(s: State, i: nat)
    requires s.confirming == map[]
    ensures var t := Handle(s, PressConfirm(i));
            && t.confirming == map[] && t.reading == s.reading && t.awaiting == s.awaiting && t.accrued == s.accrued
            && t.proofs == (if IsSubmitted(s.proofs, i) then ConfirmAt(s.proofs, i) else s.proofs)
            && t.snapshots == (if IsSubmitted(s.proofs, i)
                               then s.snapshots
                                    + [SnapshotFor(i, s.proofs[i].amountDueSnapshot, s.accrued, Paid(s.proofs))]
                               else s.snapshots)
  {
    if IsSubmitted(s.proofs, i) {
      var c := Ready(i, s.accrued, Paid(s.proofs));
      var t := s.(confirming := map[ADMIN := c]);
      assert Apply(Apply(s, Fetch(ADMIN, i)), ReadBill(ADMIN)) == t;
      assert t.confirming - {ADMIN} == map[];
    }
  }

  lemma HandlerKeepsIdle(s: State, u: Update)
    requires Idle(s)
    ensures Idle(Handle(s, u))
  {
    HandlerIsLater(s, u);
    forall m | m in s.awaiting ensures AskedWhenSettled(Handle(s, u).proofs, s.awaiting[m]) {
      SettledStays(s.proofs, Handle(s, u).proofs, s.awaiting[m]);
    }
    match u
    case PressPay(m) => PayKeepsIdle(s, m);
    case PressConfirm(i) => ConfirmClosesItsHandler(s, i);
    case _ =>
  }

  lemma HandlerKeepsSound(s: State, u: Update)
    requires Sound(s)
    ensures Sound(Handle(s, u))
  {
    match u
    case Report(total) => StepKeepsSound(s, Accrue(total));
    case PressPay(m) =>
      StepKeepsSound(s, ReadDue(m));
      StepKeepsSound(Apply(s, ReadDue(m)), Offer(m));
    case Photo(m) => StepKeepsSound(s, SendPhoto(m));
    case Leave(m) => StepKeepsSound(s, Abandon(m));
    case PressConfirm(i) =>
      StepKeepsSound(s, Fetch(ADMIN, i));
      StepKeepsSound(Apply(s, Fetch(ADMIN, i)), ReadBill(ADMIN));
      StepKeepsSound(Apply(Apply(s, Fetch(ADMIN, i)), ReadBill(ADMIN)), Mark(ADMIN));
    case PressReject(i) => StepKeepsSound(s, Reject(i));
  }

  /** A whole confirmation stores the debt that remains. */
  lemma ConfirmationStoresTheDue(s: State, i: nat)
    requires Sound(s) && Idle(s) && IsSubmitted(s.proofs, i)
    ensures var t := Handle(s, PressConfirm(i));
            && |t.snapshots| == |s.snapshots| + 1
            && t.snapshots[|s.snapshots|].amountDueAfter == Due(s.accrued, Paid(t.proofs))
  {
    ConfirmClosesItsHandler(s, i);
    ConfirmMovesTheAmount(s.proofs, i);
    PaidIsNotNegative(s);
  }

  // ---- The exact condition for whole handlers ----

  /** What a proof still claims of the debt: all of it, unless it was rejected. */
  function ClaimedBy(p: Proof): int {
    if p.status == Rejected then 0 else p.amountDueSnapshot
  }

  /** What the proofs sent since the member was asked claim. */
  function ClaimedSince(s: State, m: Member): int
    requires m in s.awaiting && s.awaiting[m].sent <= |s.proofs|
  {
    Tally(s.proofs[s.awaiting[m].sent..], ClaimedBy)
  }

  lemma {:induction false} TallySplit(proofs: seq<Proof>, n: nat, weight: Proof -> int)
    requires n <= |proofs|
    ensures Tally(proofs, weight) == Tally(proofs[..n], weight) + Tally(proofs[n..], weight)
  {
    if n == |proofs| {
      assert proofs[..n] == proofs && proofs[n..] == [];
    } else {
      var front := proofs[..|proofs| - 1];
      TallySplit(front, n, weight);
      assert front[..n] == proofs[..n] && front[n..] == proofs[n..][..|proofs| - 1 - n];
    }
  }

  lemma {:induction false} ClaimsAreOpen(proofs: seq<Proof>)
    requires forall i :: 0 <= i < |proofs| ==> SoundProof(proofs[i])
    ensures Tally(proofs, ClaimedBy) == Paid(proofs) + Pending(proofs)
    ensures Tally(proofs, ClaimedBy) >= 0
    ensures Tally(proofs, ClaimedBy) == 0 <==> forall i :: 0 <= i < |proofs| ==> proofs[i].status == Rejected
  {
    if proofs != [] {
      var front, last := proofs[..|proofs| - 1], proofs[|proofs| - 1];
      ClaimsAreOpen(front);
      assert SoundProof(last);
      assert (forall i :: 0 <= i < |proofs| ==> proofs[i].status == Rejected) <==>
             (forall i :: 0 <= i < |front| ==> front[i].status == Rejected) && last.status == Rejected;
    }
  }

  lemma {:induction false} SettledIsNotPending(proofs: seq<Proof>)
    requires forall i :: 0 <= i < |proofs| ==> proofs[i].status != Submitted
    ensures Pending(proofs) == 0
  {
    if proofs != [] {
      SettledIsNotPending(proofs[..|proofs| - 1]);
    }
  }

  /** What was confirmed or is pending since the debt was read is what the proofs sent since then claim. */
  lemma ClaimsSinceAsked(s: State, m: Member)
    requires Sound(s) && Idle(s) && m in s.awaiting
    ensures ClaimedSince(s, m) == Paid(s.proofs) - s.awaiting[m].read.paid + Pending(s.proofs)
    ensures ClaimedSince(s, m) >= 0
    ensures ClaimedSince(s, m) == 0 <==>
            forall i :: s.awaiting[m].sent <= i < |s.proofs| ==> s.proofs[i].status == Rejected
  {
    var n := s.awaiting[m].sent;
    var since := s.proofs[n..];
    assert AskedWhenSettled(s.proofs, s.awaiting[m]);
    TallySplit(s.proofs, n, PaidBy);
    TallySplit(s.proofs, n, PendingBy);
    SettledIsNotPending(s.proofs[..n]);
    forall i | 0 <= i < |since| ensures SoundProof(since[i]) {
      assert SoundProof(s.proofs[n + i]);
    }
    ClaimsAreOpen(since);
    assert (forall i :: 0 <= i < |since| ==> since[i].status == Rejected) <==>
           (forall i :: n <= i < |s.proofs| ==> s.proofs[i].status == Rejected) by {
      forall i | n <= i < |s.proofs| ensures s.proofs[i] == since[i - n] {
      }
    }
  }

  /**
   * A photo keeps the bound exactly when the proofs sent since its member was asked claim no more than accrued since;
   * if nothing accrued, exactly when every proof sent since then was rejected.
   */
  lemma PhotoFitsExactlyWhen(s: State, m: Member)
    requires Sound(s) && Idle(s) && m in s.awaiting
    ensures Within(Handle(s, Photo(m))) <==> ClaimedSince(s, m) <= s.accrued - s.awaiting[m].read.total
    ensures s.accrued == s.awaiting[m].read.total ==>
              (Within(Handle(s, Photo(m))) <==>
               forall i :: s.awaiting[m].sent <= i < |s.proofs| ==> s.proofs[i].status == Rejected)
  {
    ClaimsSinceAsked(s, m);
    PhotoStaysWithinExactlyWhen(s, m);
  }

  predicate GrowingReport(s: State, u: Update) {
    u.Report? ==> s.accrued <= u.total
  }

  /**
   * The photo's member was asked early enough: later proofs that were not rejected are covered by what accrued since.
   */
  predicate FittingPhoto(s: State, u: Update) {
    u.Photo? && u.member in s.awaiting && s.awaiting[u.member].sent <= |s.proofs| ==>
      ClaimedSince(s, u.member) <= s.accrued - s.awaiting[u.member].read.total
  }

  lemma HandlerStaysWithinExactlyWhen(s: State, u: Update)
    requires Sound(s) && Idle(s) && Within(s) && GrowingReport(s, u)
    ensures Within(Handle(s, u)) <==> FittingPhoto(s, u)
  {
    match u
    case Photo(m) =>
      if m in s.awaiting {
        PhotoFitsExactlyWhen(s, m);
      }
    case PressConfirm(i) =>
      ConfirmClosesItsHandler(s, i);
      if IsSubmitted(s.proofs, i) {
        ConfirmMovesTheAmount(s.proofs, i);
      }
    case PressReject(i) => StepStaysWithinExactlyWhen(s, Reject(i));
    case _ =>
  }

  lemma {:induction false} FitsExactlyWhen(s: State, updates: seq<Update>)
    requires Sound(s) && Idle(s) && Within(s) && Orderly(Handle, s, updates, GrowingReport)
    ensures Always(Handle, s, updates, Within) <==> Orderly(Handle, s, updates, FittingPhoto)
    decreases |updates|
  {
    if updates != [] {
      var u := updates[0];
      HandlerKeepsSound(s, u);
      HandlerKeepsIdle(s, u);
      HandlerStaysWithinExactlyWhen(s, u);
      if FittingPhoto(s, u) {
        FitsExactlyWhen(Handle(s, u), updates[1..]);
      }
    }
  }

  /**
   * Whatever updates the bot takes, what is paid and pending stays within what is accrued exactly when every photo
   * fits.
   */
  lemma UpdatesStayWithinExactlyWhen(updates: seq<Update>)
    requires Orderly(Handle, START, updates, GrowingReport)
    ensures Always(Handle, START, updates, Within) <==> Orderly(Handle, START, updates, FittingPhoto)
  {
    FitsExactlyWhen(START, updates);
  }

  // ---- Taking turns is enough ----

  /** Nobody presses pay while another member is asked for a photo. */
  predicate InTurn(s: State, u: Update) {
    u.PressPay? ==> s.awaiting.Keys <= {u.member}
  }

  /** Nothing was sent since the one member awaited was asked. */
  ghost predicate OneIsAsked(s: State) {
    && (forall m, n :: m in s.awaiting && n in s.awaiting ==> m == n)
    && forall m :: m in s.awaiting ==> s.awaiting[m].sent == |s.proofs| && s.awaiting[m].read.total <= s.accrued
  }

  lemma TurnsKeepOneAsked(s: State, u: Update)
    requires Idle(s) && OneIsAsked(s) && GrowingReport(s, u) && InTurn(s, u)
    ensures OneIsAsked(Handle(s, u)) && FittingPhoto(s, u)
  {
    match u
    case Photo(m) =>
      if m in s.awaiting {
        assert s.proofs[s.awaiting[m].sent..] == [];
      }
    case PressConfirm(i) => ConfirmClosesItsHandler(s, i);
    case _ =>
  }

  lemma {:induction false} TurnsFit(s: State, updates: seq<Update>)
    requires Idle(s) && OneIsAsked(s) && Orderly(Handle, s, updates, GrowingReport) &&
             Orderly(Handle, s, updates, InTurn)
    ensures Orderly(Handle, s, updates, FittingPhoto)
    decreases |updates|
  {
    if updates != [] {
      HandlerKeepsIdle(s, updates[0]);
      TurnsKeepOneAsked(s, updates[0]);
      TurnsFit(Handle(s, updates[0]), updates[1..]);
    }
  }

  /** When members take turns, what is paid and pending never exceeds what is accrued. */
  lemma TurnsNeverExceed(updates: seq<Update>)
    requires Orderly(Handle, START, updates, GrowingReport) && Orderly(Handle, START, updates, InTurn)
    ensures Always(Handle, START, updates, Within)
  {
    TurnsFit(START, updates);
    UpdatesStayWithinExactlyWhen(updates);
  }

  // ---- Why turns are needed ----

  lemma OneProof(p: Proof, w: Proof -> int)
    ensures Tally([p], w) == w(p)
  {
  }

  lemma TwoProofs(p: Proof, q: Proof, w: Proof -> int)
    ensures Tally([p, q], w) == w(p) + w(q)
  {
    assert [p, q][..1] == [p];
    OneProof(p, w);
  }

  lemma HandleOne(s: State, u: Update, rest: seq<Update>)
    ensures HandleAll(s, [u] + rest) == HandleAll(Handle(s, u), rest)
  {
    assert ([u] + rest)[1..] == rest;
  }

  /** Both members were asked for the whole debt. */
  function BothAsked(debt: int): State {
    START.(accrued := debt, awaiting := map[1 := Note(Reading(debt, 0), 0), 2 := Note(Reading(debt, 0), 0)])
  }

  function BothSent(debt: int): State {
    START.(accrued := debt, proofs := [Proof(debt, 0, Submitted), Proof(debt, 0, Submitted)])
  }

  lemma TwoMembersSend(debt: int)
    requires debt > 0
    ensures Handle(Handle(BothAsked(debt), Photo(1)), Photo(2)) == BothSent(debt)
  {
    var p, n := Proof(debt, 0, Submitted), Note(Reading(debt, 0), 0);
    var s3 := START.(accrued := debt, proofs := [p], awaiting := map[2 := n]);
    assert Handle(BothAsked(debt), Photo(1)) == s3 by { assert BothAsked(debt).awaiting - {1} == s3.awaiting; }
    assert Handle(s3, Photo(2)) == BothSent(debt) by { assert s3.awaiting - {2} == map[]; assert [p] + [p] == [p, p]; }
  }

  /** Two members who are both asked before either sends a photo each submit the whole debt. */
  lemma TwoMembersSubmitTwice(debt: int)
    requires debt > 0
    ensures var s := HandleAll(START, [Report(debt), PressPay(1), PressPay(2), Photo(1), Photo(2)]);
            s.accrued == debt && Paid(s.proofs) == 0 && Pending(s.proofs) == 2 * debt
  {
    var s0 := Handle(START, Report(debt));
    var s1 := Handle(s0, PressPay(1));
    var s3 := Handle(BothAsked(debt), Photo(1));
    TwoMembersSend(debt);
    HandleOne(START, Report(debt), [PressPay(1), PressPay(2), Photo(1), Photo(2)]);
    HandleOne(s0, PressPay(1), [PressPay(2), Photo(1), Photo(2)]);
    HandleOne(s1, PressPay(2), [Photo(1), Photo(2)]);
    HandleOne(BothAsked(debt), Photo(1), [Photo(2)]);
    HandleOne(s3, Photo(2), []);
    TwoProofs(Proof(debt, 0, Submitted), Proof(debt, 0, Submitted), PaidBy);
    TwoProofs(Proof(debt, 0, Submitted), Proof(debt, 0, Submitted), PendingBy);
  }
}
