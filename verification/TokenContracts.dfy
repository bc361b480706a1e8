/**
 Every operation of the token library, said without the stages it goes through: exactly when it
 succeeds, and what it makes of each balance, each allowance and the supply.
 */
module TokenContracts {
  import opened Basics
  import opened Addresses
  import opened Ledgers
  import opened Tokens

  // ---------------------------------------------------------------- vocabulary

  predicate ValidAmount(amount: int, g: nat)
    requires g >= 1
  {
    amount >= 0 && amount % g == 0
  }

  /** The actor that `a` names, or the one an account created for it becomes. */
  function IdOf(t: AddressTable, a: Address): ActorID {
    match t.Resolve(a)
    case Some(id) => id
    case None => t.next
  }

  ghost predicate KeepsBalances(l: Ledger, l': Ledger) {
    l'.supply == l.supply && forall a :: l'.Bal(a) == l.Bal(a)
  }

  ghost predicate KeepsAllowances(l: Ledger, l': Ledger) {
    forall o, p :: l'.Allow(o, p) == l.Allow(o, p)
  }

  ghost predicate SetsBalance(l: Ledger, l': Ledger, owner: ActorID, v: int) {
    && l'.supply == l.supply + v - l.Bal(owner)
    && forall a :: l'.Bal(a) == if a == owner then v else l.Bal(a)
  }

  ghost predicate Moves(l: Ledger, l': Ledger, from: ActorID, to: ActorID, amount: int) {
    && l'.supply == l.supply
    && forall a :: l'.Bal(a) == l.Bal(a) - (if a == from then amount else 0) + (if a == to then amount else 0)
  }

  ghost predicate SetsAllowance(l: Ledger, l': Ledger, owner: ActorID, operator: ActorID, v: int) {
    forall o, p :: l'.Allow(o, p) == if o == owner && p == operator then v else l.Allow(o, p)
  }

  // ---------------------------------------------------------------- effects

  /** The effect of each kind on every balance, every allowance and the supply. */
  ghost predicate Does(l: Ledger, l': Ledger, e: Effect) {
    match e
    case Mint(to, amount) => SetsBalance(l, l', to, l.Bal(to) + amount) && KeepsAllowances(l, l')
    case Transfer(from, to, amount) => Moves(l, l', from, to, amount) && KeepsAllowances(l, l')
    case TransferFrom(operator, from, to, amount) =>
      Moves(l, l', from, to, amount) && SetsAllowance(l, l', from, operator, l.Allow(from, operator) - amount)
    case Burn(owner, amount) => SetsBalance(l, l', owner, l.Bal(owner) - amount) && KeepsAllowances(l, l')
    case BurnFrom(operator, owner, amount) =>
      && SetsBalance(l, l', owner, l.Bal(owner) - amount)
      && SetsAllowance(l, l', owner, operator, l.Allow(owner, operator) - amount)
    case Increase(owner, operator, delta) =>
      KeepsBalances(l, l') && SetsAllowance(l, l', owner, operator, l.Allow(owner, operator) + delta)
    case Decrease(owner, operator, delta) =>
      var v := l.Allow(owner, operator);
      KeepsBalances(l, l') && SetsAllowance(l, l', owner, operator, if v > delta then v - delta else 0)
    case SetAllowance(owner, operator, amount) =>
      KeepsBalances(l, l') && SetsAllowance(l, l', owner, operator, amount)
    case SetBalance(owner, amount) => SetsBalance(l, l', owner, amount) && KeepsAllowances(l, l')
  }

  lemma ApplyExactly(l: Ledger, g: nat, e: Effect)
    requires l.Valid(g) && Admissible(g, e) && Refusal(l, e).None?
    ensures Does(l, Apply(l, e), e)
  {
    match e
    case Transfer(from, to, amount) => MoveKeeps(l, g, from, to, amount);
    case TransferFrom(operator, from, to, amount) => TransferFromDoes(l, g, operator, from, to, amount);
    case BurnFrom(operator, owner, amount) => BurnFromDoes(l, operator, owner, amount);
    case Increase(owner, operator, delta) =>
      AllowIsNonNegative(l, owner, operator);
      WithAllowKeeps(l, owner, operator, l.Allow(owner, operator) + delta);
    case Decrease(owner, operator, delta) =>
      var v := l.Allow(owner, operator);
      WithAllowKeeps(l, owner, operator, if v > delta then v - delta else 0);
    case SetAllowance(owner, operator, amount) => WithAllowKeeps(l, owner, operator, amount);
    case _ =>
  }

  lemma TransferFromDoes(l: Ledger, g: nat, operator: ActorID, from: ActorID, to: ActorID, amount: int)
    requires l.Valid(g) && ValidAmount(amount, g) && amount <= l.Allow(from, operator) && amount <= l.Bal(from)
    ensures Does(l, Apply(l, TransferFrom(operator, from, to, amount)), TransferFrom(operator, from, to, amount))
  {
    var spent := Spend(l, operator, from, amount);
    SpendKeeps(l, g, operator, from, amount);
    WithAllowKeeps(l, from, operator, l.Allow(from, operator) - amount);
    MoveKeeps(spent, g, from, to, amount);
    MoveKeepsAllowances(spent, from, to, amount);
    assert KeepsBalances(l, spent);
  }

  lemma BurnFromDoes(l: Ledger, operator: ActorID, owner: ActorID, amount: int)
    requires l.Canonical() && 0 <= amount <= l.Allow(owner, operator) && amount <= l.Bal(owner)
    ensures Does(l, Apply(l, BurnFrom(operator, owner, amount)), BurnFrom(operator, owner, amount))
  {
    var spent := Spend(l, operator, owner, amount);
    WithAllowKeeps(l, owner, operator, l.Allow(owner, operator) - amount);
    DestroyKeepsAllowances(spent, owner, amount);
    assert KeepsBalances(l, spent);
  }

  lemma MoveKeepsAllowances(l: Ledger, from: ActorID, to: ActorID, amount: int)
    ensures KeepsAllowances(l, Move(l, from, to, amount))
  {
  }

  lemma DestroyKeepsAllowances(l: Ledger, owner: ActorID, amount: int)
    ensures KeepsAllowances(l, Destroy(l, owner, amount))
  {
  }

  // ---------------------------------------------------------------- operations

  lemma InitBothExactly(t: AddressTable, a: Address, b: Address)
    requires t.Consistent()
    ensures var (t', r) := InitBoth(t, a, b);
            && OnlyOpens(t, t', {a, b})
            && (r.Ok? <==> t.Reaches(a) && t.Reaches(b))
            && (r.Ok? ==> t'.Resolve(a) == Some(IdOf(t, a)) == Some(r.value.0) && t'.Resolve(b) == Some(r.value.1))
  {
    InitExactly(t, a);
    InitTwiceExactly(t, a, b);
  }

  /** Mint: needs a valid amount and two addresses that name or can get an account. */
  lemma MintExactly(t: AddressTable, g: nat, l: Ledger, operator: Address, owner: Address, amount: int)
    requires t.Consistent() && l.Valid(g)
    ensures var (t', l', error) := TokenStep(t, g, l, OpMint(operator, owner, amount));
            && OnlyOpens(t, t', {operator, owner})
            && (error.None? <==> ValidAmount(amount, g) && t.Reaches(operator) && t.Reaches(owner))
            && (error.Some? ==> l' == l)
            && (error.None? ==>
                  && t'.Resolve(operator).Some? && t'.Resolve(owner).Some?
                  && var o := t'.Resolve(owner).value;
                     SetsBalance(l, l', o, l.Bal(o) + amount) && KeepsAllowances(l, l'))
  {
    InitBothExactly(t, operator, owner);
    if ValidAmount(amount, g) && t.Reaches(operator) && t.Reaches(owner) {
      ApplyExactly(l, g, Mint(InitBoth(t, operator, owner).1.value.1, amount));
    }
  }

  /** Transfer: needs a valid amount, two such addresses, and the tokens. */
  lemma TransferExactly(t: AddressTable, g: nat, l: Ledger, from: Address, to: Address, amount: int)
    requires t.Consistent() && l.Valid(g)
    ensures var (t', l', error) := TokenStep(t, g, l, OpTransfer(from, to, amount));
            && OnlyOpens(t, t', {from, to})
            && (error.None? <==>
                  ValidAmount(amount, g) && t.Reaches(from) && t.Reaches(to) && amount <= l.Bal(IdOf(t, from)))
            && (error.Some? ==> l' == l)
            && (error.None? ==>
                  && t'.Resolve(from) == Some(IdOf(t, from)) && t'.Resolve(to).Some?
                  && Moves(l, l', IdOf(t, from), t'.Resolve(to).value, amount) && KeepsAllowances(l, l'))
  {
    InitBothExactly(t, from, to);
    if TokenStep(t, g, l, OpTransfer(from, to, amount)).2.None? {
      var (f, r) := InitBoth(t, from, to).1.value;
      ApplyExactly(l, g, Transfer(f, r, amount));
    }
  }

  /** Between an operator and an owner that are two actors, both known: the allowance is not zero and it
      and the balance cover the amount. */
  predicate MaySpend(t: AddressTable, l: Ledger, operator: Address, owner: Address, amount: int) {
    match (t.Resolve(operator), t.Resolve(owner))
    case (Some(p), Some(o)) => p != o && l.Allow(o, p) > 0 && amount <= l.Allow(o, p) && amount <= l.Bal(o)
    case _ => false
  }

  lemma SpendPlan(t: AddressTable, g: nat, operator: Address, from: Address, to: Address, amount: int)
    requires t.Consistent() && g >= 1
    ensures var (t', plan) := Plan(t, g, OpTransferFrom(operator, from, to, amount));
            && OnlyOpens(t, t', {to})
            && (plan.Ok? <==>
                  && ValidAmount(amount, g) && t.Reaches(to)
                  && t.Resolve(operator).Some? && t.Resolve(from).Some? && t.Resolve(operator) != t.Resolve(from))
            && (plan.Ok? ==>
                  && t'.Resolve(to).Some?
                  && plan.value == Some(TransferFrom(t.Resolve(operator).value, t.Resolve(from).value,
                                                     t'.Resolve(to).value, amount)))
  {
    SameExactly(t, operator, from);
    InitExactly(t, to);
  }

  /** An operator that is not the owner is refused exactly when the allowance is zero or it or the balance
      is too small. */
  lemma SpendRefusal(l: Ledger, p: ActorID, f: ActorID, to: ActorID, amount: int)
    requires l.Canonical() && p != f
    ensures Refusal(l, TransferFrom(p, f, to, amount)).None?
       <==> l.Allow(f, p) > 0 && amount <= l.Allow(f, p) && amount <= l.Bal(f)
  {
    AllowIsNonNegative(l, f, p);
  }

  lemma TransferFromExactly(t: AddressTable, g: nat, l: Ledger, operator: Address, from: Address, to: Address,
                            amount: int)
    requires t.Consistent() && l.Valid(g)
    ensures var (t', l', error) := TokenStep(t, g, l, OpTransferFrom(operator, from, to, amount));
            && OnlyOpens(t, t', {to})
            && (error.None? <==>
                  ValidAmount(amount, g) && MaySpend(t, l, operator, from, amount) && t.Reaches(to))
            && (error.Some? ==> l' == l)
            && (error.None? ==>
                  && t'.Resolve(to).Some?
                  && var p, f := t.Resolve(operator).value, t.Resolve(from).value;
                     && Moves(l, l', f, t'.Resolve(to).value, amount)
                     && SetsAllowance(l, l', f, p, l.Allow(f, p) - amount))
  {
    SpendPlan(t, g, operator, from, to, amount);
    var (t', plan) := Plan(t, g, OpTransferFrom(operator, from, to, amount));
    match plan
    case Ok(Some(effect)) =>
      SpendRefusal(l, effect.operator, effect.from, effect.to, amount);
      if Refusal(l, effect).None? {
        TransferFromDoes(l, g, effect.operator, effect.from, effect.to, amount);
      }
    case _ =>
  }

  lemma BurnExactly(t: AddressTable, g: nat, l: Ledger, owner: Address, amount: int)
    requires t.Consistent() && l.Valid(g)
    ensures var (t', l', error) := TokenStep(t, g, l, OpBurn(owner, amount));
            && OnlyOpens(t, t', {owner})
            && (error.None? <==> ValidAmount(amount, g) && t.Reaches(owner) && amount <= l.Bal(IdOf(t, owner)))
            && (error.Some? ==> l' == l)
            && (error.None? ==>
                  && t'.Resolve(owner) == Some(IdOf(t, owner))
                  && SetsBalance(l, l', IdOf(t, owner), l.Bal(IdOf(t, owner)) - amount) && KeepsAllowances(l, l'))
  {
    InitExactly(t, owner);
    if TokenStep(t, g, l, OpBurn(owner, amount)).2.None? {
      ApplyExactly(l, g, Burn(IdOf(t, owner), amount));
    }
  }

  lemma BurnFromExactly(t: AddressTable, g: nat, l: Ledger, operator: Address, owner: Address, amount: int)
    requires t.Consistent() && l.Valid(g)
    ensures var (t', l', error) := TokenStep(t, g, l, OpBurnFrom(operator, owner, amount));
            && t' == t
            && (error.None? <==> ValidAmount(amount, g) && MaySpend(t, l, operator, owner, amount))
            && (error.Some? ==> l' == l)
            && (error.None? ==>
                  var p, o := t.Resolve(operator).value, t.Resolve(owner).value;
                  && SetsBalance(l, l', o, l.Bal(o) - amount)
                  && SetsAllowance(l, l', o, p, l.Allow(o, p) - amount))
  {
    SameExactly(t, operator, owner);
    if t.Resolve(operator).Some? && t.Resolve(owner).Some? {
      AllowIsNonNegative(l, t.Resolve(owner).value, t.Resolve(operator).value);
    }
    if TokenStep(t, g, l, OpBurnFrom(operator, owner, amount)).2.None? {
      ApplyExactly(l, g, BurnFrom(t.Resolve(operator).value, t.Resolve(owner).value, amount));
    }
  }

  lemma IncreaseExactly(t: AddressTable, g: nat, l: Ledger, owner: Address, operator: Address, delta: int)
    requires t.Consistent() && l.Valid(g)
    ensures var (t', l', error) := TokenStep(t, g, l, OpIncrease(owner, operator, delta));
            && OnlyOpens(t, t', {owner, operator})
            && (error.None? <==> delta >= 0 && t.Reaches(owner) && t.Reaches(operator))
            && (error.Some? ==> l' == l)
            && (error.None? ==>
                  && t'.Resolve(owner).Some? && t'.Resolve(operator).Some? && KeepsBalances(l, l')
                  && var o, p := t'.Resolve(owner).value, t'.Resolve(operator).value;
                     SetsAllowance(l, l', o, p, l.Allow(o, p) + delta))
  {
    InitBothExactly(t, owner, operator);
    if TokenStep(t, g, l, OpIncrease(owner, operator, delta)).2.None? {
      var (o, p) := InitBoth(t, owner, operator).1.value;
      ApplyExactly(l, g, Increase(o, p, delta));
    }
  }

  /** Decrease: the allowance goes down by `delta`, but not below zero. */
  lemma DecreaseExactly(t: AddressTable, g: nat, l: Ledger, owner: Address, operator: Address, delta: int)
    requires t.Consistent() && l.Valid(g)
    ensures var (t', l', error) := TokenStep(t, g, l, OpDecrease(owner, operator, delta));
            && OnlyOpens(t, t', {owner, operator})
            && (error.None? <==> delta >= 0 && t.Reaches(owner) && t.Reaches(operator))
            && (error.Some? ==> l' == l)
            && (error.None? ==>
                  && t'.Resolve(owner).Some? && t'.Resolve(operator).Some? && KeepsBalances(l, l')
                  && var o, p := t'.Resolve(owner).value, t'.Resolve(operator).value;
                     SetsAllowance(l, l', o, p, if l.Allow(o, p) > delta then l.Allow(o, p) - delta else 0))
  {
    InitBothExactly(t, owner, operator);
    if TokenStep(t, g, l, OpDecrease(owner, operator, delta)).2.None? {
      var (o, p) := InitBoth(t, owner, operator).1.value;
      ApplyExactly(l, g, Decrease(o, p, delta));
    }
  }

  /** What revoking does: one allowance becomes zero if both addresses resolve, else nothing happens. */
  ghost predicate Revokes(t: AddressTable, l: Ledger, l': Ledger, owner: Address, operator: Address) {
    match (t.Resolve(owner), t.Resolve(operator))
    case (Some(o), Some(p)) => KeepsBalances(l, l') && SetsAllowance(l, l', o, p, 0)
    case _ => l' == l
  }

  /** Revoke never fails and creates no account. */
  lemma RevokeExactly(t: AddressTable, g: nat, l: Ledger, owner: Address, operator: Address)
    requires l.Valid(g)
    ensures var (t', l', error) := TokenStep(t, g, l, OpRevoke(owner, operator));
            t' == t && error.None? && Revokes(t, l, l', owner, operator)
  {
    if t.Resolve(owner).Some? && t.Resolve(operator).Some? {
      ApplyExactly(l, g, SetAllowance(t.Resolve(owner).value, t.Resolve(operator).value, 0));
    }
  }

  /** Setting an allowance to zero is revoking it. */
  lemma SetAllowanceExactly(t: AddressTable, g: nat, l: Ledger, owner: Address, operator: Address, amount: int)
    requires t.Consistent() && l.Valid(g)
    ensures var (t', l', error) := TokenStep(t, g, l, OpSetAllowance(owner, operator, amount));
            && (amount < 0 ==> t' == t && l' == l && error.Some?)
            && (amount == 0 ==> t' == t && error.None? && Revokes(t, l, l', owner, operator))
            && (amount > 0 ==>
                  && OnlyOpens(t, t', {owner, operator})
                  && (error.None? <==> t.Reaches(owner) && t.Reaches(operator))
                  && (error.Some? ==> l' == l)
                  && (error.None? ==>
                        && t'.Resolve(owner).Some? && t'.Resolve(operator).Some? && KeepsBalances(l, l')
                        && SetsAllowance(l, l', t'.Resolve(owner).value, t'.Resolve(operator).value, amount)))
  {
    if amount == 0 {
      RevokeExactly(t, g, l, owner, operator);
    } else if amount > 0 {
      InitBothExactly(t, owner, operator);
      if TokenStep(t, g, l, OpSetAllowance(owner, operator, amount)).2.None? {
        var (o, p) := InitBoth(t, owner, operator).1.value;
        ApplyExactly(l, g, SetAllowance(o, p, amount));
      }
    }
  }

  lemma SetBalanceExactly(t: AddressTable, g: nat, l: Ledger, owner: Address, amount: int)
    requires t.Consistent() && l.Valid(g)
    ensures var (t', l', error) := TokenStep(t, g, l, OpSetBalance(owner, amount));
            && OnlyOpens(t, t', {owner})
            && (error.None? <==> ValidAmount(amount, g) && t.Reaches(owner))
            && (error.Some? ==> l' == l)
            && (error.None? ==>
                  && t'.Resolve(owner) == Some(IdOf(t, owner))
                  && SetsBalance(l, l', IdOf(t, owner), amount) && KeepsAllowances(l, l'))
  {
    InitExactly(t, owner);
    if TokenStep(t, g, l, OpSetBalance(owner, amount)).2.None? {
      ApplyExactly(l, g, SetBalance(IdOf(t, owner), amount));
    }
  }

  // ---------------------------------------------------------------- errors

  /** The amount an operation is about, and whether it moves tokens. */
  function AmountOf(op: Op): (int, bool) {
    match op
    case OpMint(_, _, amount) => (amount, true)
    case OpTransfer(_, _, amount) => (amount, true)
    case OpTransferFrom(_, _, _, amount) => (amount, true)
    case OpBurn(_, amount) => (amount, true)
    case OpBurnFrom(_, _, amount) => (amount, true)
    case OpSetBalance(_, amount) => (amount, true)
    case OpIncrease(_, _, delta) => (delta, false)
    case OpDecrease(_, _, delta) => (delta, false)
    case OpSetAllowance(_, _, amount) => (amount, false)
    case OpRevoke(_, _) => (0, false)
  }

  /** Owner and operator, if the operation spends an allowance. */
  function SpenderOf(op: Op): Option<(Address, Address)> {
    match op
    case OpTransferFrom(operator, from, _, _) => Some((from, operator))
    case OpBurnFrom(operator, owner, _) => Some((owner, operator))
    case _ => None
  }

  /** What is true when validation or resolution ends with this error. */
  predicate PlanCause(t: AddressTable, g: nat, op: Op, error: TokenError)
    requires g >= 1
  {
    var (amount, moves) := AmountOf(op);
    match error
    case InvalidNegative(v) => v == amount < 0
    case NotGranular(v) => v == amount >= 0 && moves && amount % g != 0
    case InvalidOperator(a) =>
      && SpenderOf(op).Some?
      && var (owner, operator) := SpenderOf(op).value;
         a == operator && (a == owner || (t.Resolve(a).Some? && t.Resolve(a) == t.Resolve(owner)))
    case State(InsufficientAllowance(_, _, allowance, delta)) =>
      && SpenderOf(op).Some? && allowance == 0 && delta == amount
      && var (owner, operator) := SpenderOf(op).value;
         t.Resolve(owner).None? || t.Resolve(operator).None?
    case State(_) => false
    case Messaging(Syscall) => t.abortNext
    case Messaging(AddressNotInitialized(a)) => t.Resolve(a).None? && !a.Instantiable()
    case Messaging(AddressNotResolved(_)) => false
  }

  /** Every error of validation and resolution names its true cause. */
  lemma PlanErrorsTellCauses(t: AddressTable, g: nat, op: Op)
    requires t.Consistent() && g >= 1
    ensures Plan(t, g, op).1.Err? ==> PlanCause(t, g, op, Plan(t, g, op).1.error)
  {
    match op
    case OpMint(a, b, _) => InitErrors(t, a, b);
    case OpTransfer(a, b, _) => InitErrors(t, a, b);
    case OpIncrease(a, b, _) => InitErrors(t, a, b);
    case OpDecrease(a, b, _) => InitErrors(t, a, b);
    case OpSetAllowance(a, b, _) => InitErrors(t, a, b);
    case OpTransferFrom(p, f, a, amount) => SpendErrors(t, g, p, f, a, amount);
    case OpBurnFrom(p, f, _) => SameExactly(t, p, f);
    case OpBurn(a, _) => InitExactly(t, a);
    case OpSetBalance(a, _) => InitExactly(t, a);
    case OpRevoke(_, _) =>
  }

  lemma SpendErrors(t: AddressTable, g: nat, operator: Address, from: Address, to: Address, amount: int)
    requires t.Consistent() && g >= 1
    ensures var op := OpTransferFrom(operator, from, to, amount);
            Plan(t, g, op).1.Err? ==> PlanCause(t, g, op, Plan(t, g, op).1.error)
  {
    SameExactly(t, operator, from);
    InitExactly(t, to);
  }

  /** Every refusal of the ledger names the account that cannot pay, or the two between whom there is not
      enough allowance, and by how much. */
  lemma RefusalsTellCauses(l: Ledger, e: Effect)
    ensures match Refusal(l, e)
            case None => true
            case Some(InsufficientBalance(id, balance, delta)) =>
              && (match e
                  case Transfer(from, _, amount) => id == from && delta == -amount
                  case TransferFrom(_, from, _, amount) => id == from && delta == -amount
                  case Burn(owner, amount) => id == owner && delta == -amount
                  case BurnFrom(_, owner, amount) => id == owner && delta == -amount
                  case _ => false)
              && balance == l.Bal(id) && balance + delta < 0
            case Some(InsufficientAllowance(owner, operator, allowance, delta)) =>
              && owner.ID? && operator.ID?
              && (match e
                  case TransferFrom(p, from, _, amount) => (owner.id, operator.id, delta) == (from, p, amount)
                  case BurnFrom(p, o, amount) => (owner.id, operator.id, delta) == (o, p, amount)
                  case _ => false)
              && allowance == l.Allow(owner.id, operator.id) && (allowance == 0 || allowance < delta)
            case Some(_) => false
  {
  }

  lemma InitErrors(t: AddressTable, a: Address, b: Address)
    requires t.Consistent()
    ensures var (t', r) := InitBoth(t, a, b);
            && (r.Ok? ==> t'.Resolve(a) == Some(r.value.0))
            && (match r
                case Ok(_) => true
                case Err(Messaging(Syscall)) => t.abortNext
                case Err(Messaging(AddressNotInitialized(x))) =>
                  (x == a || x == b) && t.Resolve(x).None? && !x.Instantiable()
                case Err(_) => false)
  {
    InitBothExactly(t, a, b);
  }
}
