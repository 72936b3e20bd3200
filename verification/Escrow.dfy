// The 2-of-3 Cashu escrow: the condition builder, its checker, and what
// "Pay-to-Pubkey (P2PK)" of NUT-11 lets spend the result.
module Escrow {
  import opened Prelude

  // A compressed SEC1 key in hex; only equality matters here.
  type PublicKey = string

  datatype Parties = Parties(buyer: PublicKey, seller: PublicKey, mostro: PublicKey)

  datatype SigFlag = SigInputs | SigAll

  datatype Conditions = Conditions(
    locktime: Option<nat>,
    pubkeys: Option<seq<PublicKey>>,
    refundKeys: Option<seq<PublicKey>>,
    numSigs: Option<nat>,
    sigFlag: SigFlag,
    numSigsRefund: Option<nat>)

  datatype SpendingConditions =
    | P2PK(data: PublicKey, conditions: Option<Conditions>)
    | HTLC(hash: string, htlcConditions: Option<Conditions>)

  datatype EscrowError =
    | InvalidEscrowParties
    | InvalidEscrowConditions
    | NotP2PK
    | WrongSellerKey
    | NoConditions
    | NoExtraKeys
    | WrongKeyCount
    | BuyerOrMostroMissing
    | WrongNumSigs
    | WrongSigFlag
    | LocktimeTooEarly
    | NoLocktime
    | WrongRefundKey
    | WrongRefundSigs

  datatype Verdict = Accepted | Rejected(error: EscrowError)

  predicate Distinct(p: Parties) {
    p.buyer != p.seller && p.buyer != p.mostro && p.seller != p.mostro
  }

  function EnsureDistinct(p: Parties): Verdict {
    if p.buyer == p.seller || p.buyer == p.mostro || p.seller == p.mostro then
      Rejected(InvalidEscrowParties)
    else
      Accepted
  }

  // The Cashu library refuses a locktime that has already passed.
  function EscrowConditions(p: Parties, locktime: nat, now: nat): Result<SpendingConditions, EscrowError> {
    if EnsureDistinct(p) != Accepted then Err(InvalidEscrowParties)
    else if locktime < now then Err(InvalidEscrowConditions)
    else Ok(P2PK(p.seller, Some(Conditions(
      Some(locktime), Some([p.buyer, p.mostro]), Some([p.seller]), Some(2), SigInputs, Some(1)))))
  }

  function VerifyConditions(sc: SpendingConditions, p: Parties, minLocktime: nat): Verdict {
    if EnsureDistinct(p) != Accepted then EnsureDistinct(p)
    else if !sc.P2PK? then Rejected(NotP2PK)
    else if sc.data != p.seller then Rejected(WrongSellerKey)
    else if sc.conditions.None? then Rejected(NoConditions)
    else
      var c := sc.conditions.value;
      if c.pubkeys.None? then Rejected(NoExtraKeys)
      else if |c.pubkeys.value| != 2 then Rejected(WrongKeyCount)
      else if p.buyer !in c.pubkeys.value || p.mostro !in c.pubkeys.value then Rejected(BuyerOrMostroMissing)
      else if c.numSigs != Some(2) then Rejected(WrongNumSigs)
      else if c.sigFlag != SigInputs then Rejected(WrongSigFlag)
      else if c.locktime.None? then Rejected(NoLocktime)
      else if c.locktime.value < minLocktime then Rejected(LocktimeTooEarly)
      else if c.refundKeys != Some([p.seller]) then Rejected(WrongRefundKey)
      else if (if c.numSigsRefund.Some? then c.numSigsRefund.value else 1) != 1 then Rejected(WrongRefundSigs)
      else Accepted
  }

  // ---- What the mint accepts -------------------------------------------------

  predicate HasThreshold(keys: seq<PublicKey>, n: nat, signers: set<PublicKey>) {
    |set k | k in keys && k in signers| >= n
  }

  // A P2PK secret is spendable by its threshold of keys at any time and, once
  // its locktime lies in the past, by the threshold of its refund keys (by
  // anyone when it names none).
  predicate Spendable(sc: SpendingConditions, signers: set<PublicKey>, now: nat)
    requires sc.P2PK?
  {
    match sc.conditions
    case None => sc.data in signers
    case Some(c) =>
      var keys := [sc.data] + (if c.pubkeys.Some? then c.pubkeys.value else []);
      var n := if c.numSigs.Some? then c.numSigs.value else 1;
      || HasThreshold(keys, n, signers)
      || (&& c.locktime.Some?
          && c.locktime.value < now
          && (c.refundKeys.Some? && c.refundKeys.value != [] ==>
                HasThreshold(c.refundKeys.value, if c.numSigsRefund.Some? then c.numSigsRefund.value else 1, signers)))
  }

  ghost predicate TwoOfThree(p: Parties, signers: set<PublicKey>) {
    || (p.buyer in signers && p.seller in signers)
    || (p.buyer in signers && p.mostro in signers)
    || (p.seller in signers && p.mostro in signers)
  }

  // The builder's condition with its extra keys possibly swapped and its
  // refund threshold possibly left at the default.
  ghost function Variant(p: Parties, locktime: nat, swapped: bool, defaultRefundSigs: bool): SpendingConditions {
    P2PK(p.seller, Some(Conditions(
      Some(locktime),
      Some(if swapped then [p.mostro, p.buyer] else [p.buyer, p.mostro]),
      Some([p.seller]), Some(2), SigInputs,
      if defaultRefundSigs then None else Some(1))))
  }

  // The builder builds exactly for three different keys and a locktime that has
  // not passed, and says which of the two is missing.
  lemma BuilderSucceedsExactlyWhen(p: Parties, locktime: nat, now: nat)
    ensures var different := p.buyer != p.seller && p.buyer != p.mostro && p.seller != p.mostro;
      && (EscrowConditions(p, locktime, now).Ok? <==> different && now <= locktime)
      && (EscrowConditions(p, locktime, now) == Err(InvalidEscrowParties) <==> !different)
      && (EscrowConditions(p, locktime, now) == Err(InvalidEscrowConditions) <==> different && locktime < now)
  {
  }

  lemma BuilderIsAccepted(p: Parties, locktime: nat, now: nat, minLocktime: nat)
    requires p.buyer != p.seller && p.buyer != p.mostro && p.seller != p.mostro
    requires now <= locktime && minLocktime <= locktime
    ensures EscrowConditions(p, locktime, now).Ok?
    ensures EscrowConditions(p, locktime, now).value == Variant(p, locktime, false, false)
    ensures VerifyConditions(EscrowConditions(p, locktime, now).value, p, minLocktime) == Accepted
  {
    BuilderSucceedsExactlyWhen(p, locktime, now);
  }

  // The checker accepts exactly the builder's conditions, up to those two
  // liberties, whose locktime is late enough.
  lemma AcceptsExactlyTheBuilder(sc: SpendingConditions, p: Parties, minLocktime: nat)
    ensures VerifyConditions(sc, p, minLocktime) == Accepted
      <==> Distinct(p) && exists locktime: nat, swapped, defaulted ::
             minLocktime <= locktime && sc == Variant(p, locktime, swapped, defaulted)
  {
    if VerifyConditions(sc, p, minLocktime) == Accepted {
      var c := sc.conditions.value;
      var keys := c.pubkeys.value;
      var swapped := keys[0] == p.mostro;
      assert keys == if swapped then [p.mostro, p.buyer] else [p.buyer, p.mostro];
      assert sc == Variant(p, c.locktime.value, swapped, c.numSigsRefund.None?);
    }
  }

  // The order of the checks.
  ghost function Place(e: EscrowError): nat {
    match e
    case InvalidEscrowParties => 0
    case NotP2PK => 1
    case WrongSellerKey => 2
    case NoConditions => 3
    case NoExtraKeys => 4
    case WrongKeyCount => 5
    case BuyerOrMostroMissing => 6
    case WrongNumSigs => 7
    case WrongSigFlag => 8
    case NoLocktime => 9
    case LocktimeTooEarly => 10
    case WrongRefundKey => 11
    case WrongRefundSigs => 12
    case InvalidEscrowConditions => 13
  }

  // What each refusal says is wrong.
  ghost predicate Wrong(sc: SpendingConditions, p: Parties, minLocktime: nat, e: EscrowError) {
    if e == InvalidEscrowParties then p.buyer == p.seller || p.buyer == p.mostro || p.seller == p.mostro
    else if e == NotP2PK then sc.HTLC?
    else if e == WrongSellerKey then sc.P2PK? && sc.data != p.seller
    else if e == NoConditions then sc.P2PK? && sc.conditions == None
    else
      sc.P2PK? && sc.conditions.Some? &&
        var c := sc.conditions.value;
        match e
        case NoExtraKeys => c.pubkeys == None
        case WrongKeyCount => c.pubkeys.Some? && |c.pubkeys.value| != 2
        case BuyerOrMostroMissing => c.pubkeys.Some? && !({p.buyer, p.mostro} <= set k | k in c.pubkeys.value)
        case WrongNumSigs => c.numSigs != Some(2)
        case WrongSigFlag => c.sigFlag == SigAll
        case NoLocktime => c.locktime == None
        case LocktimeTooEarly => c.locktime.Some? && c.locktime.value < minLocktime
        case WrongRefundKey => c.refundKeys == None || c.refundKeys.value != [p.seller]
        case WrongRefundSigs => c.numSigsRefund.Some? && c.numSigsRefund.value != 1
        case _ => false
  }

  ghost predicate FirstWrong(sc: SpendingConditions, p: Parties, minLocktime: nat, e: EscrowError) {
    && Wrong(sc, p, minLocktime, e)
    && forall other :: Place(other) < Place(e) ==> !Wrong(sc, p, minLocktime, other)
  }

  lemma RejectionIsFirstWrong(sc: SpendingConditions, p: Parties, minLocktime: nat)
    ensures match VerifyConditions(sc, p, minLocktime)
      case Accepted => forall e :: !Wrong(sc, p, minLocktime, e)
      case Rejected(e) => FirstWrong(sc, p, minLocktime, e)
  {
  }

  // The checker names the first thing that is wrong, and accepts when nothing is.
  lemma RejectsForTheFirstFault(sc: SpendingConditions, p: Parties, minLocktime: nat, e: EscrowError)
    ensures VerifyConditions(sc, p, minLocktime) == Rejected(e) <==> FirstWrong(sc, p, minLocktime, e)
    ensures VerifyConditions(sc, p, minLocktime) == Accepted <==>
      forall fault :: !Wrong(sc, p, minLocktime, fault)
  {
    RejectionIsFirstWrong(sc, p, minLocktime);
    var v := VerifyConditions(sc, p, minLocktime);
    if FirstWrong(sc, p, minLocktime, e) && v.Rejected? {
      assert Place(v.error) == Place(e);
    }
  }

  lemma TwoKeysOfThree(keys: seq<PublicKey>, p: Parties, signers: set<PublicKey>)
    requires Distinct(p)
    requires |keys| == 3 && (set k | k in keys) == {p.buyer, p.seller, p.mostro}
    ensures HasThreshold(keys, 2, signers) <==> TwoOfThree(p, signers)
  {
    var signed := set k | k in keys && k in signers;
    assert signed == {p.buyer, p.seller, p.mostro} * signers;
    if !TwoOfThree(p, signers) {
      var one := if p.buyer in signers then p.buyer else if p.seller in signers then p.seller else p.mostro;
      assert signed <= {one};
      assert |signed| <= |{one}| by { SubsetSize(signed, {one}); }
    } else {
      var pair := if p.buyer in signers && p.seller in signers then {p.buyer, p.seller}
                  else if p.buyer in signers && p.mostro in signers then {p.buyer, p.mostro}
                  else {p.seller, p.mostro};
      assert pair <= signed && |pair| == 2;
      SubsetSize(pair, signed);
    }
  }

  lemma SubsetSize<T>(a: set<T>, b: set<T>)
    requires a <= b
    ensures |a| <= |b|
  {
    assert b == a + (b - a);
  }

  // Whatever the checker accepts is a 2-of-3 until its locktime and, after it,
  // a 2-of-3 that the seller alone may also spend.
  lemma AcceptedEscrowIsTwoOfThree(sc: SpendingConditions, p: Parties, minLocktime: nat, signers: set<PublicKey>,
      now: nat)
    requires VerifyConditions(sc, p, minLocktime) == Accepted
    ensures sc.P2PK? && sc.conditions.Some? && sc.conditions.value.locktime.Some?
    ensures var locktime := sc.conditions.value.locktime.value;
      && minLocktime <= locktime
      && (Spendable(sc, signers, now) <==> TwoOfThree(p, signers) || (locktime < now && p.seller in signers))
  {
    var c := sc.conditions.value;
    var keys := [sc.data] + c.pubkeys.value;
    assert c.pubkeys.value == [p.buyer, p.mostro] || c.pubkeys.value == [p.mostro, p.buyer];
    TwoKeysOfThree(keys, p, signers);
    var refunds := set k | k in [p.seller] && k in signers;
    assert refunds == if p.seller in signers then {p.seller} else {};
  }
}
