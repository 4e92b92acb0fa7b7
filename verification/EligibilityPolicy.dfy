/** The eligibility policy: which operations a player may perform, and why not. */
module EligibilityPolicy {
  import opened Wrappers
  import KycDomain

  // Each kind of policy data may also hold a value the policy does not know.

  datatype AccountStatus = Restricted | Active | Suspended | Closed | UnknownAccount

  datatype Operation = ViewRaces | Deposit | Withdraw | PlaceWager | StartKyc | ManageProfile | UnknownOperation

  datatype RestrictionType =
    | WageringBlocked | DepositsBlocked | WithdrawalsBlocked | SecurityReview
    | ManualReview | SelfExclusion | JurisdictionBlocked | KycRequired
    | UnknownRestriction

  datatype ReasonCode =
    | PolicyDataIncomplete | AccountRestricted | AccountSuspended | AccountClosed
    | KycPending | KycNotVerified | OnSecurityReview | SelfExcluded | JurisdictionIsBlocked
    | WageringIsBlocked | DepositsAreBlocked | WithdrawalsAreBlocked

  /** What a decision was based on; a KYC status that could not be read or is unknown is absent. */
  datatype Snapshot = Snapshot(account: AccountStatus, kyc: Option<KycDomain.KycStatus>,
                               restrictions: set<RestrictionType>)

  datatype Verdict = Verdict(allowed: bool, reasons: seq<ReasonCode>)

  predicate Complete(operation: Operation, s: Snapshot) {
    && operation != UnknownOperation && s.account != UnknownAccount && s.kyc.Some?
    && UnknownRestriction !in s.restrictions
  }

  function Blocking(operation: Operation): seq<RestrictionType> {
    match operation
    case Deposit => [DepositsBlocked, JurisdictionBlocked, KycRequired]
    case Withdraw => [WithdrawalsBlocked, KycRequired]
    case PlaceWager => [WageringBlocked, SelfExclusion, JurisdictionBlocked, SecurityReview, KycRequired]
    case _ => []
  }

  predicate MovesMoney(operation: Operation) { operation in {Deposit, Withdraw, PlaceWager} }

  function AccountReason(account: AccountStatus): ReasonCode {
    match account
    case Restricted => AccountRestricted
    case Suspended => AccountSuspended
    case Closed => AccountClosed
    case Active | UnknownAccount => PolicyDataIncomplete
  }

  function RestrictionReason(restriction: RestrictionType): ReasonCode {
    match restriction
    case SecurityReview => OnSecurityReview
    case SelfExclusion => SelfExcluded
    case JurisdictionBlocked => JurisdictionIsBlocked
    case WageringBlocked => WageringIsBlocked
    case DepositsBlocked => DepositsAreBlocked
    case WithdrawalsBlocked => WithdrawalsAreBlocked
    case KycRequired => KycNotVerified
    case ManualReview | UnknownRestriction => PolicyDataIncomplete
  }

  /** Some policy data is not known. */
  predicate IsIncomplete(operation: Operation, s: Snapshot) {
    || operation == UnknownOperation || s.account == UnknownAccount || s.kyc.None?
    || UnknownRestriction in s.restrictions
  }

  /** A denial reason applies to an operation under a snapshot: the policy, reason by reason. */
  ghost predicate Applies(reason: ReasonCode, operation: Operation, s: Snapshot) {
    if IsIncomplete(operation, s) then reason == PolicyDataIncomplete
    else
      var money := operation in {Deposit, Withdraw, PlaceWager};
      match reason
      case PolicyDataIncomplete => false
      case AccountClosed => operation != ManageProfile && s.account == Closed
      case AccountRestricted => money && s.account == Restricted
      case AccountSuspended => money && s.account == Suspended
      case KycPending => money && s.kyc.value == KycDomain.Pending
      case KycNotVerified =>
        money && (s.kyc.value !in {KycDomain.Pending, KycDomain.Verified} || KycRequired in s.restrictions)
      case WageringIsBlocked => operation == PlaceWager && WageringBlocked in s.restrictions
      case SelfExcluded => operation == PlaceWager && SelfExclusion in s.restrictions
      case OnSecurityReview => operation == PlaceWager && SecurityReview in s.restrictions
      case JurisdictionIsBlocked => operation in {Deposit, PlaceWager} && JurisdictionBlocked in s.restrictions
      case DepositsAreBlocked => operation == Deposit && DepositsBlocked in s.restrictions
      case WithdrawalsAreBlocked => operation == Withdraw && WithdrawalsBlocked in s.restrictions
  }

  /** Where a reason stands in a verdict: the account first, then the KYC status, then the restrictions. */
  ghost function Position(reason: ReasonCode, s: Snapshot): nat {
    match reason
    case PolicyDataIncomplete | AccountClosed | AccountRestricted | AccountSuspended => 0
    case KycPending => 1
    case KycNotVerified => if s.kyc in {Some(KycDomain.Pending), Some(KycDomain.Verified)} then 6 else 1
    case WageringIsBlocked | DepositsAreBlocked | WithdrawalsAreBlocked => 2
    case SelfExcluded => 3
    case JurisdictionIsBlocked => 4
    case OnSecurityReview => 5
  }

  /** The elements without repetitions, in the order of their first occurrence. */
  function Unique<T(==,!new)>(items: seq<T>): (u: seq<T>)
    ensures forall r :: r in u <==> r in items
    ensures forall j, k :: 0 <= j < k < |u| ==> u[j] != u[k]
  {
    if items == [] then []
    else
      var n := |items| - 1;
      assert items == items[..n] + [items[n]];
      var u := Unique(items[..n]);
      if items[n] in u then u else u + [items[n]]
  }

  function BlockingReasons(types: seq<RestrictionType>, active: set<RestrictionType>): (u: seq<ReasonCode>)
    ensures forall reason :: reason in u <==> exists r :: r in types && r in active && reason == RestrictionReason(r)
  {
    if types == [] then []
    else
      var n := |types| - 1;
      assert types == types[..n] + [types[n]];
      BlockingReasons(types[..n], active) + if types[n] in active then [RestrictionReason(types[n])] else []
  }

  function AccountAndKycReasons(operation: Operation, s: Snapshot): seq<ReasonCode>
    requires s.kyc.Some?
  {
    (if s.account == Closed then [AccountClosed] else [])
    + (if MovesMoney(operation) && s.account != Active then [AccountReason(s.account)] else [])
    + (if MovesMoney(operation) && s.kyc.value == KycDomain.Pending then [KycPending] else [])
    + (if MovesMoney(operation) && s.kyc.value !in {KycDomain.Pending, KycDomain.Verified} then [KycNotVerified]
       else [])
  }

  function Reasons(operation: Operation, s: Snapshot): seq<ReasonCode> {
    if !Complete(operation, s) then [PolicyDataIncomplete]
    else if operation == ManageProfile then []
    else AccountAndKycReasons(operation, s) + BlockingReasons(Blocking(operation), s.restrictions)
  }

  function Evaluate(operation: Operation, s: Snapshot): Verdict {
    Verdict(Reasons(operation, s) == [], Unique(Reasons(operation, s)))
  }

  /** What is not a repetition stands behind everything before it. */
  ghost predicate InOrder(reasons: seq<ReasonCode>, s: Snapshot) {
    forall j, k :: 0 <= j < k < |reasons| && reasons[k] !in reasons[..k] ==>
      Position(reasons[j], s) < Position(reasons[k], s)
  }

  lemma {:induction false} UniqueInOrder(reasons: seq<ReasonCode>, s: Snapshot)
    requires InOrder(reasons, s)
    ensures forall j, k :: 0 <= j < k < |Unique(reasons)| ==>
              Position(Unique(reasons)[j], s) < Position(Unique(reasons)[k], s)
  {
    hide Position;
    if reasons != [] {
      var n := |reasons| - 1;
      forall k | 0 <= k < n ensures reasons[..n][..k] == reasons[..k] {}
      UniqueInOrder(reasons[..n], s);
      var u := Unique(reasons[..n]);
      forall j | 0 <= j < |u| ensures reasons[n] in u || Position(u[j], s) < Position(reasons[n], s) {
        assert u[j] in reasons[..n];
      }
    }
  }

  /** The same, but for reasons seen before. */
  ghost predicate InOrderBut(reasons: seq<ReasonCode>, seen: seq<ReasonCode>, s: Snapshot) {
    forall j, k :: 0 <= j < k < |reasons| && reasons[k] !in seen ==> Position(reasons[j], s) < Position(reasons[k], s)
  }

  ghost predicate TypesInOrder(types: seq<RestrictionType>, seen: seq<ReasonCode>, s: Snapshot) {
    forall j, k :: 0 <= j < k < |types| && RestrictionReason(types[k]) !in seen ==>
      Position(RestrictionReason(types[j]), s) < Position(RestrictionReason(types[k]), s)
  }

  /** Blocking restrictions listed in the order of their reasons give reasons in that order. */
  lemma {:induction false} BlockingInOrder(types: seq<RestrictionType>, active: set<RestrictionType>,
                                           seen: seq<ReasonCode>, s: Snapshot)
    requires TypesInOrder(types, seen, s)
    ensures InOrderBut(BlockingReasons(types, active), seen, s)
  {
    hide Position, RestrictionReason;
    if types == [] {
      assert BlockingReasons(types, active) == [];
    } else {
      var n := |types| - 1;
      assert TypesInOrder(types[..n], seen, s);
      BlockingInOrder(types[..n], active, seen, s);
      var found := BlockingReasons(types[..n], active);
      assert BlockingReasons(types, active) ==
             found + if types[n] in active then [RestrictionReason(types[n])] else [];
      forall j | 0 <= j < |found| && RestrictionReason(types[n]) !in seen
        ensures Position(found[j], s) < Position(RestrictionReason(types[n]), s)
      {
        assert found[j] in found;
        var r :| r in types[..n] && r in active && found[j] == RestrictionReason(r);
        var i :| 0 <= i < n && types[..n][i] == r;
        assert types[i] == r;
      }
    }
  }

  lemma AppendInOrder(a: seq<ReasonCode>, b: seq<ReasonCode>, s: Snapshot)
    requires InOrder(a, s)
    requires InOrderBut(b, a, s)
    requires forall x, y :: x in a && y in b && y !in a ==> Position(x, s) < Position(y, s)
    ensures InOrder(a + b, s)
  {
    hide Position;
    forall j, k | 0 <= j < k < |a + b| && (a + b)[k] !in (a + b)[..k]
      ensures Position((a + b)[j], s) < Position((a + b)[k], s)
    {
      if k < |a| {
        assert (a + b)[..k] == a[..k];
      } else {
        assert (a + b)[..k] == a + b[..k - |a|];
        assert (a + b)[k] == b[k - |a|] && b[k - |a|] !in a;
        if j < |a| { assert a[j] in a && b[k - |a|] in b; }
      }
    }
  }

  lemma ReasonsInOrder(operation: Operation, s: Snapshot)
    ensures InOrder(Reasons(operation, s), s)
  {
    hide BlockingReasons, InOrder, InOrderBut, AccountAndKycReasons;
    if !Complete(operation, s) || operation == ManageProfile {
      ShortInOrder(operation, s);
    } else {
      var first := AccountAndKycReasons(operation, s);
      var blocking := BlockingReasons(Blocking(operation), s.restrictions);
      FirstInOrder(operation, s);
      assert TypesInOrder(Blocking(operation), first, s) by { FirstFacts(operation, s, KycNotVerified); }
      BlockingInOrder(Blocking(operation), s.restrictions, first, s);
      forall x, y | x in first && y in blocking && y !in first ensures Position(x, s) < Position(y, s) {
        FirstFacts(operation, s, x);
      }
      AppendInOrder(first, blocking, s);
    }
  }

  lemma ShortInOrder(operation: Operation, s: Snapshot)
    requires !Complete(operation, s) || operation == ManageProfile
    ensures InOrder(Reasons(operation, s), s)
  {
  }

  lemma FirstFacts(operation: Operation, s: Snapshot, x: ReasonCode)
    requires Complete(operation, s)
    ensures x in AccountAndKycReasons(operation, s) <==>
            || (x == AccountClosed && s.account == Closed)
            || (MovesMoney(operation) && s.account != Active && x == AccountReason(s.account))
            || (MovesMoney(operation) && s.kyc.value == KycDomain.Pending && x == KycPending)
            || (MovesMoney(operation) && s.kyc.value !in {KycDomain.Pending, KycDomain.Verified} && x == KycNotVerified)
  {
  }

  lemma FirstInOrder(operation: Operation, s: Snapshot)
    requires Complete(operation, s)
    ensures InOrder(AccountAndKycReasons(operation, s), s)
  {
  }

  /** A verdict lists exactly the reasons that apply, each once and in their order, and allows exactly when none
      does. */
  lemma VerdictIsPolicy(operation: Operation, s: Snapshot)
    ensures var v := Evaluate(operation, s);
            && (forall reason :: reason in v.reasons <==> Applies(reason, operation, s))
            && (forall j, k :: 0 <= j < k < |v.reasons| ==> Position(v.reasons[j], s) < Position(v.reasons[k], s))
            && (v.allowed <==> forall reason :: !Applies(reason, operation, s))
  {
    hide BlockingReasons, Unique, Position, InOrder, Applies, Reasons;
    var reasons := Reasons(operation, s);
    ReasonsAreThose(operation, s);
    ReasonsInOrder(operation, s);
    UniqueInOrder(reasons, s);
    if reasons != [] { assert reasons[0] in reasons; }
  }

  lemma ReasonsAreThose(operation: Operation, s: Snapshot)
    ensures forall reason :: reason in Reasons(operation, s) <==> Applies(reason, operation, s)
  {
    hide BlockingReasons, AccountAndKycReasons, Blocking, RestrictionReason;
    if Complete(operation, s) && operation != ManageProfile {
      forall reason ensures reason in Reasons(operation, s) <==> Applies(reason, operation, s) {
        FirstFacts(operation, s, reason);
        BlockingFacts(operation, s, reason);
      }
    }
  }

  lemma BlockingFacts(operation: Operation, s: Snapshot, reason: ReasonCode)
    requires Complete(operation, s)
    ensures reason in BlockingReasons(Blocking(operation), s.restrictions) <==>
            match reason
            case KycNotVerified => MovesMoney(operation) && KycRequired in s.restrictions
            case WageringIsBlocked => operation == PlaceWager && WageringBlocked in s.restrictions
            case SelfExcluded => operation == PlaceWager && SelfExclusion in s.restrictions
            case OnSecurityReview => operation == PlaceWager && SecurityReview in s.restrictions
            case JurisdictionIsBlocked => operation in {Deposit, PlaceWager} && JurisdictionBlocked in s.restrictions
            case DepositsAreBlocked => operation == Deposit && DepositsBlocked in s.restrictions
            case WithdrawalsAreBlocked => operation == Withdraw && WithdrawalsBlocked in s.restrictions
            case _ => false
  {
    hide BlockingReasons;
  }

  lemma NothingBlocks(types: seq<RestrictionType>, active: set<RestrictionType>)
    ensures BlockingReasons(types, active) == [] <==> forall k :: 0 <= k < |types| ==> types[k] !in active
  {
    var found := BlockingReasons(types, active);
    assert forall k :: 0 <= k < |types| && types[k] in active ==> RestrictionReason(types[k]) in found;
    if found != [] { assert found[0] in found; }
  }

  /** The snapshots that permit a deposit: an active account with verified KYC and none of the
      deposit, jurisdiction and KYC-required blocks, nor of an unknown type. */
  predicate PermitsDeposit(s: Snapshot) {
    && s.account == Active && s.kyc == Some(KycDomain.Verified)
    && DepositsBlocked !in s.restrictions && JurisdictionBlocked !in s.restrictions && KycRequired !in s.restrictions
    && UnknownRestriction !in s.restrictions
  }

  lemma DepositAllowedIff(s: Snapshot)
    ensures Evaluate(Deposit, s).allowed <==> PermitsDeposit(s)
  {
    var types := Blocking(Deposit);
    NothingBlocks(types, s.restrictions);
    hide BlockingReasons;
    assert types == [DepositsBlocked, JurisdictionBlocked, KycRequired];
    assert (forall k :: 0 <= k < |types| ==> types[k] !in s.restrictions) <==>
           types[0] !in s.restrictions && types[1] !in s.restrictions && types[2] !in s.restrictions;
    if Complete(Deposit, s) {
      var first := AccountAndKycReasons(Deposit, s);
      assert first == [] <==> s.account == Active && s.kyc.value == KycDomain.Verified;
      assert Reasons(Deposit, s) == [] <==> first == [] && BlockingReasons(types, s.restrictions) == [];
    }
  }

  /** The policy's loop over the restrictions that block an operation. */
  method PushBlocking(reasons: seq<ReasonCode>, types: seq<RestrictionType>, active: set<RestrictionType>)
    returns (all: seq<ReasonCode>)
    ensures all == reasons + BlockingReasons(types, active)
  {
    all := reasons;
    for k := 0 to |types|
      invariant all == reasons + BlockingReasons(types[..k], active)
    {
      assert types[..k + 1][..k] == types[..k];
      if types[k] in active { all := all + [RestrictionReason(types[k])]; }
    }
    assert types[..|types|] == types;
  }

  method EvaluatePolicy(operation: Operation, s: Snapshot) returns (v: Verdict)
    ensures v == Evaluate(operation, s)
  {
    if !Complete(operation, s) { return Verdict(false, [PolicyDataIncomplete]); }
    if operation == ManageProfile { return Verdict(true, []); }
    var reasons := [];
    if s.account == Closed { reasons := reasons + [AccountClosed]; }
    if operation == ViewRaces || operation == StartKyc {
      assert reasons == Reasons(operation, s);
      return Verdict(reasons == [], Unique(reasons));
    }
    if s.account != Active { reasons := reasons + [AccountReason(s.account)]; }
    if s.kyc.value != KycDomain.Verified {
      reasons := reasons + [if s.kyc.value == KycDomain.Pending then KycPending else KycNotVerified];
    }
    ghost var before := AccountAndKycReasons(operation, s);
    assert reasons == before;
    reasons := PushBlocking(reasons, Blocking(operation), s.restrictions);
    v := Verdict(reasons == [], Unique(reasons));
  }
}
