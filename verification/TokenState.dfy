/**
 The token state object: the code of frc46_token/src/token/state.rs, which loads maps from their
 CIDs, changes them, flushes them and relinks them.  Each mutator is proved to make the one-point
 update of the `Bal` and `Allow` functions that Ledgers describes.
 */
module TokenStates {
  import opened Basics
  import opened Addresses
  import opened Ledgers

  /** What the invariant checker can find wrong. */
  datatype InvariantError =
    | SupplyNegative(supply: int)
    | BalanceNegative(account: ActorID, balance: int)
    | BalanceSupplyMismatch(supply: int, balanceSum: int)
    | ExplicitZeroBalance(account: ActorID)
    | InvalidGranularity(account: ActorID, balance: int)
    | ExplicitEmptyAllowance(owner: ActorID)
    | ExplicitSelfAllowance(owner: ActorID, allowance: int)
    | NegativeAllowanceStored(owner: ActorID, operator: ActorID, allowance: int)
    | ExplicitZeroAllowance(owner: ActorID, operator: ActorID)

  class TokenState {
    var supply: int
    var balances: Cid<Balances>
    var allowances: Cid<Allowances>

    constructor Load(l: Ledger)
      ensures Value() == l
    {
      supply, balances, allowances := l.supply, l.balances, l.allowances;
    }

    /** The value that is serialised when the state is saved. */
    function Value(): Ledger
      reads this
    {
      Ledger(supply, balances, allowances)
    }

    method Replace(l: Ledger)
      modifies this
      ensures Value() == l
    {
      supply, balances, allowances := l.supply, l.balances, l.allowances;
    }

    // -------------------------------------------------------------- balances and supply

    function GetBalance(owner: ActorID): int
      reads this
    {
      Value().Bal(owner)
    }

    method ChangeBalanceBy(owner: ActorID, delta: int) returns (r: Result<int, StateError>)
      requires Value().Canonical()
      modifies this
      ensures old(GetBalance(owner)) + delta >= 0 ==>
        && r == Ok(old(GetBalance(owner)) + delta)
        && Value() == old(Value()).WithBal(owner, old(GetBalance(owner)) + delta)
      ensures old(GetBalance(owner)) + delta < 0 ==>
        && r == Err(InsufficientBalance(owner, old(GetBalance(owner)), delta))
        && Value() == old(Value())
    {
      if delta == 0 {
        PutGet(balances.content, owner);
        return Ok(GetBalance(owner));
      }
      var balanceMap := balances.content;
      var balance := if owner in balanceMap then balanceMap[owner] else 0;
      var newBalance := balance + delta;
      if newBalance < 0 {
        return Err(InsufficientBalance(owner, balance, delta));
      }
      if newBalance == 0 {
        balanceMap := balanceMap - {owner};
      } else {
        balanceMap := balanceMap[owner := newBalance];
      }
      balances := Cid(balanceMap);
      return Ok(newBalance);
    }

    /** Returns the old balance; the supply is the caller's business. */
    method SetBalance(owner: ActorID, newBalance: int) returns (r: Result<int, StateError>)
      modifies this
      ensures newBalance < 0 ==> r == Err(NegativeBalance(newBalance, owner)) && Value() == old(Value())
      ensures newBalance >= 0 ==>
        r == Ok(old(GetBalance(owner))) && Value() == old(Value()).WithBal(owner, newBalance)
    {
      if newBalance < 0 {
        return Err(NegativeBalance(newBalance, owner));
      }
      var balanceMap := balances.content;
      var oldBalance := if owner in balanceMap then balanceMap[owner] else 0;
      if newBalance == 0 {
        balanceMap := balanceMap - {owner};
        balances := Cid(balanceMap);
        return Ok(oldBalance);
      }
      balanceMap := balanceMap[owner := newBalance];
      balances := Cid(balanceMap);
      return Ok(oldBalance);
    }

    /** The self-transfer branch and the debit-then-credit branch are one and the same `Move`. */
    method MakeTransfer(from: ActorID, to: ActorID, amount: int) returns (r: Result<(), StateError>)
      requires Value().Canonical() && amount >= 0
      modifies this
      ensures r.Ok? <==> CannotPay(old(Value()), from, amount).None?
      ensures r.Ok? ==> Value() == Move(old(Value()), from, to, amount)
      ensures r.Err? ==> Some(r.error) == CannotPay(old(Value()), from, amount) && Value() == old(Value())
    {
      if from == to {
        var balance := GetBalance(from);
        if balance < amount {
          return Err(InsufficientBalance(from, balance, -amount));
        }
        SelfMove(Value(), from, amount);
        r := Ok(());
      } else {
        var _ :- ChangeBalanceBy(from, -amount);
        // The credit that follows a debit cannot fail: this is what makes the contract hold.
        var credited := ChangeBalanceBy(to, amount);
        match credited {
          case Err(error) => r := Err(error);
          case Ok(_) => r := Ok(());
        }
      }
    }

    method ChangeSupplyBy(delta: int) returns (r: Result<int, StateError>)
      modifies this
      ensures old(supply) + delta >= 0 ==>
        r == Ok(old(supply) + delta) && Value() == old(Value()).WithSupply(old(supply) + delta)
      ensures old(supply) + delta < 0 ==>
        r == Err(NegativeTotalSupply(old(supply), delta)) && Value() == old(Value())
    {
      var newSupply := supply + delta;
      if newSupply < 0 {
        return Err(NegativeTotalSupply(supply, delta));
      }
      supply := newSupply;
      return Ok(supply);
    }

    // -------------------------------------------------------------- allowances

    function GetOwnerAllowanceMap(owner: ActorID): Option<OwnerAllowances>
      reads this
    {
      if owner in allowances.content then Some(allowances.content[owner].content) else None
    }

    function GetAllowanceBetween(owner: ActorID, operator: ActorID): (r: int)
      reads this
      ensures r == Value().Allow(owner, operator)
    {
      match GetOwnerAllowanceMap(owner)
      case Some(m) => if operator in m then m[operator] else 0
      case None => 0
    }

    method ChangeAllowanceBy(owner: ActorID, operator: ActorID, delta: int) returns (r: Result<int, StateError>)
      requires Value().Canonical()
      modifies this
      ensures var changed := old(Value()).Allow(owner, operator) + delta;
              var clamped := if changed > 0 then changed else 0;
              r == Ok(clamped) && Value() == old(Value()).WithAllow(owner, operator, clamped)
    {
      ghost var before := Value();
      if delta == 0 {
        AllowIsNonNegative(before, owner, operator);
        RewriteAllowance(before, owner, operator);
        return Ok(GetAllowanceBetween(owner, operator));
      }
      var globalMap := allowances.content;
      var allowanceMap: OwnerAllowances := map[];
      if owner in globalMap {
        allowanceMap := globalMap[owner].content;
      } else if delta < 0 {
        RewriteAllowance(before, owner, operator);
        return Ok(0);
      }
      var newAllowance := if operator in allowanceMap then allowanceMap[operator] + delta else delta;
      newAllowance := if newAllowance > 0 then newAllowance else 0;
      if newAllowance == 0 {
        allowanceMap := allowanceMap - {operator};
      } else {
        allowanceMap := allowanceMap[operator := newAllowance];
      }
      if allowanceMap == map[] {
        globalMap := globalMap - {owner};
      } else {
        globalMap := globalMap[owner := Cid(allowanceMap)];
      }
      allowances := Cid(globalMap);
      return Ok(newAllowance);
    }

    /** Returns the old allowance. */
    method RevokeAllowance(owner: ActorID, operator: ActorID) returns (r: Result<int, StateError>)
      requires Value().Canonical()
      modifies this
      ensures r == Ok(old(Value()).Allow(owner, operator))
      ensures Value() == old(Value()).WithAllow(owner, operator, 0)
    {
      match GetOwnerAllowanceMap(owner) {
        case Some(m) =>
          var oldAllowance := if operator in m then m[operator] else 0;
          var remaining := m - {operator};
          if remaining == map[] {
            allowances := Cid(allowances.content - {owner});
          } else {
            allowances := Cid(allowances.content[owner := Cid(remaining)]);
          }
          return Ok(oldAllowance);
        case None =>
          RewriteAllowance(Value(), owner, operator);
          return Ok(0);
      }
    }

    /** Returns the old allowance. */
    method SetAllowance(owner: ActorID, operator: ActorID, amount: int) returns (r: Result<int, StateError>)
      requires Value().Canonical()
      modifies this
      ensures amount < 0 ==> r == Err(NegativeAllowance(amount, owner, operator)) && Value() == old(Value())
      ensures amount >= 0 ==>
        r == Ok(old(Value()).Allow(owner, operator)) && Value() == old(Value()).WithAllow(owner, operator, amount)
    {
      if amount < 0 {
        return Err(NegativeAllowance(amount, owner, operator));
      }
      var rootMap := allowances.content;
      var allowanceMap: OwnerAllowances := if owner in rootMap then rootMap[owner].content else map[];
      var oldAllowance := if operator in allowanceMap then allowanceMap[operator] else 0;
      if amount == 0 {
        var _ := RevokeAllowance(owner, operator);
        return Ok(oldAllowance);
      }
      allowanceMap := allowanceMap[operator := amount];
      rootMap := rootMap[owner := Cid(allowanceMap)];
      allowances := Cid(rootMap);
      return Ok(oldAllowance);
    }

    /** Deducts `amount` from the allowance, or refuses and changes nothing. */
    method AttemptUseAllowance(operator: ActorID, owner: ActorID, amount: int)
      returns (r: Result<int, StateError>)
      requires Value().Canonical() && amount >= 0
      modifies this
      ensures r.Ok? <==> CannotSpend(old(Value()), operator, owner, amount).None?
      ensures r.Ok? ==>
        && Value() == Spend(old(Value()), operator, owner, amount)
        && r.value == Value().Allow(owner, operator) == old(Value()).Allow(owner, operator) - amount
      ensures r.Err? ==>
        Some(r.error) == CannotSpend(old(Value()), operator, owner, amount) && Value() == old(Value())
    {
      var current := GetAllowanceBetween(owner, operator);
      if (current == 0 && operator != owner) || current < amount {
        return Err(InsufficientAllowance(ID(owner), ID(operator), current, amount));
      }
      WithAllowKeeps(Value(), owner, operator, current - amount);
      if amount == 0 {
        RewriteAllowance(Value(), owner, operator);
        return Ok(current);
      }
      r := ChangeAllowanceBy(owner, operator, -amount);
    }

    // -------------------------------------------------------------- invariant checking

    /** Visits the balances in any order. */
    method CheckBalances(g: nat) returns (errors: seq<InvariantError>)
      requires g >= 1
      ensures errors == [] <==>
        AllPositive(balances.content) && MultiplesOf(balances.content, g) && Sum(balances.content) == supply
    {
      errors := [];
      var balanceSum := 0;
      var todo := balances.content;
      while todo != map[]
        invariant forall a | a in todo :: a in balances.content && todo[a] == balances.content[a]
        invariant balanceSum + Sum(todo) == Sum(balances.content)
        invariant errors == [] <==>
          forall a | a in balances.content && a !in todo :: balances.content[a] > 0 && balances.content[a] % g == 0
        decreases |todo|
      {
        var owner :| owner in todo;
        var balance := todo[owner];
        SumRemove(todo, owner);
        if balance < 0 {
          errors := errors + [BalanceNegative(owner, balance)];
        }
        if balance == 0 {
          errors := errors + [ExplicitZeroBalance(owner)];
        }
        if balance % g != 0 {
          errors := errors + [InvalidGranularity(owner, balance)];
        }
        balanceSum := balanceSum + balance;
        todo := todo - {owner};
      }
      if balanceSum != supply {
        errors := errors + [BalanceSupplyMismatch(supply, balanceSum)];
      }
    }

    method CheckOwnerAllowances(owner: ActorID, m: OwnerAllowances) returns (errors: seq<InvariantError>)
      ensures errors == [] <==> AllPositive(m) && owner !in m
    {
      errors := [];
      var todo := m;
      while todo != map[]
        invariant forall p | p in todo :: p in m && todo[p] == m[p]
        invariant errors == [] <==> forall p | p in m && p !in todo :: m[p] > 0 && p != owner
        decreases |todo|
      {
        var operator :| operator in todo;
        var allowance := todo[operator];
        if owner == operator {
          errors := errors + [ExplicitSelfAllowance(owner, allowance)];
        }
        if allowance < 0 {
          errors := errors + [NegativeAllowanceStored(owner, operator, allowance)];
        }
        if allowance == 0 {
          errors := errors + [ExplicitZeroAllowance(owner, operator)];
        }
        todo := todo - {operator};
      }
    }

    /** Visits the owners, and each owner's operators, in any order. */
    method CheckAllowances() returns (errors: seq<InvariantError>)
      ensures errors == [] <==> CanonicalAllowances(allowances.content) && NoSelfAllowance(Value())
    {
      errors := [];
      var todo := allowances.content;
      while todo != map[]
        invariant forall o | o in todo :: o in allowances.content && todo[o] == allowances.content[o]
        invariant errors == [] <==>
          forall o | o in allowances.content && o !in todo ::
            var m := allowances.content[o].content; m != map[] && AllPositive(m) && o !in m
        decreases |todo|
      {
        var owner :| owner in todo;
        var allowanceMap := todo[owner].content;
        if allowanceMap == map[] {
          errors := errors + [ExplicitEmptyAllowance(owner)];
        } else {
          var found := CheckOwnerAllowances(owner, allowanceMap);
          errors := errors + found;
        }
        todo := todo - {owner};
      }
    }

    /** Accepts exactly the valid ledgers in which nobody has an allowance from themselves. */
    method CheckInvariants(g: nat) returns (errors: seq<InvariantError>)
      requires g >= 1
      ensures errors == [] <==> Value().Valid(g) && NoSelfAllowance(Value())
    {
      errors := [];
      if supply < 0 {
        errors := errors + [SupplyNegative(supply)];
      }
      var balanceErrors := CheckBalances(g);
      errors := errors + balanceErrors;
      var allowanceErrors := CheckAllowances();
      errors := errors + allowanceErrors;
      if Value().Valid(g) {
        SupplyIsMultiple(Value(), g);
      }
    }
  }

  ghost predicate NoSelfAllowance(l: Ledger) {
    forall o | o in l.allowances.content :: o !in l.allowances.content[o].content
  }

  lemma SelfMove(l: Ledger, a: ActorID, amount: int)
    requires l.Canonical() && 0 <= amount <= l.Bal(a)
    ensures Move(l, a, a, amount) == l
  {
    var debited := l.WithBal(a, l.Bal(a) - amount);
    assert Move(l, a, a, amount).balances.content == Put(l.balances.content, a, l.Bal(a));
    PutGet(l.balances.content, a);
  }

  // ---------------------------------------------------------------- transaction bodies
  // The closures that the token library runs on a copy of the state.  On an error the copy may hold
  // a half-made change; the caller drops it.

  method MintBody(s: TokenState, ghost g: nat, to: ActorID, amount: int) returns (r: Result<(), StateError>)
    requires s.Value().Valid(g) && amount >= 0
    modifies s
    ensures r.Ok? && s.Value() == Apply(old(s.Value()), Mint(to, amount))
  {
    BalanceFacts(s.Value(), g, to);
    var credited := s.ChangeBalanceBy(to, amount);
    match credited {
      case Err(e) => r := Err(e);
      case Ok(_) =>
        var supplied := s.ChangeSupplyBy(amount);
        match supplied {
          case Err(e) => r := Err(e);
          case Ok(_) => r := Ok(());
        }
    }
  }

  /** Debits the balance, then the supply; the second step cannot fail once the first did not. */
  method BurnBody(s: TokenState, ghost g: nat, owner: ActorID, amount: int) returns (r: Result<int, StateError>)
    requires s.Value().Valid(g) && amount >= 0
    modifies s
    ensures r.Ok? ==>
      && Refusal(old(s.Value()), Burn(owner, amount)).None?
      && s.Value() == Apply(old(s.Value()), Burn(owner, amount))
      && r.value == s.GetBalance(owner)
    ensures r.Err? ==> Refusal(old(s.Value()), Burn(owner, amount)) == Some(r.error)
  {
    BalanceFacts(s.Value(), g, owner);
    var debited :- s.ChangeBalanceBy(owner, -amount);
    var supplied := s.ChangeSupplyBy(-amount);
    match supplied {
      case Err(e) => r := Err(e);
      case Ok(_) => r := Ok(debited);
    }
  }

  method TransferFromBody(s: TokenState, ghost g: nat, operator: ActorID, from: ActorID, to: ActorID, amount: int)
    returns (r: Result<(), StateError>)
    requires s.Value().Valid(g) && amount >= 0
    modifies s
    ensures r.Ok? ==>
      && Refusal(old(s.Value()), TransferFrom(operator, from, to, amount)).None?
      && s.Value() == Apply(old(s.Value()), TransferFrom(operator, from, to, amount))
    ensures r.Err? ==> Refusal(old(s.Value()), TransferFrom(operator, from, to, amount)) == Some(r.error)
  {
    ghost var before := s.Value();
    var _ :- s.AttemptUseAllowance(operator, from, amount);
    SpendKeeps(before, g, operator, from, amount);
    r := s.MakeTransfer(from, to, amount);
  }

  /** Returns the owner's balance and the operator's allowance. */
  method BurnFromBody(s: TokenState, ghost g: nat, operator: ActorID, owner: ActorID, amount: int)
    returns (r: Result<(int, int), StateError>)
    requires s.Value().Valid(g) && amount >= 0
    modifies s
    ensures r.Ok? ==>
      && Refusal(old(s.Value()), BurnFrom(operator, owner, amount)).None?
      && s.Value() == Apply(old(s.Value()), BurnFrom(operator, owner, amount))
      && r.value == (s.GetBalance(owner), s.GetAllowanceBetween(owner, operator))
    ensures r.Err? ==> Refusal(old(s.Value()), BurnFrom(operator, owner, amount)) == Some(r.error)
  {
    ghost var before := s.Value();
    var used :- s.AttemptUseAllowance(operator, owner, amount);
    SpendKeeps(before, g, operator, owner, amount);
    var burnt :- BurnBody(s, g, owner, amount);
    return Ok((burnt, used));
  }

  /** Returns the old balance.  The supply is updated without a sign check. */
  method SetBalanceBody(s: TokenState, ghost g: nat, owner: ActorID, amount: int)
    returns (r: Result<int, StateError>)
    requires s.Value().Valid(g) && amount >= 0
    modifies s
    ensures r == Ok(old(s.GetBalance(owner))) && s.Value() == Apply(old(s.Value()), SetBalance(owner, amount))
    ensures s.supply >= 0
  {
    BalanceFacts(s.Value(), g, owner);
    r := s.SetBalance(owner, amount);
    match r {
      case Err(_) =>
      case Ok(oldBalance) => s.supply := s.supply + (amount - oldBalance);
    }
  }
}
