/**
 The token library: operations between addresses, in two stages.  `Plan` validates the amount and
 resolves the addresses; `TokenStep` then applies the resulting effect or refuses.  The class has the code of
 frc46_token/src/token/mod.rs, which changes a copy of the state step by step and keeps it on success.
 */
module Tokens {
  import opened Basics
  import opened Addresses
  import opened Ledgers
  import opened TokenStates
  import opened ReceiverHooks

  datatype TokenError =
    | InvalidNegative(amount: int)
    | NotGranular(amount: int)
    | InvalidOperator(operator: Address)
    | State(state: StateError)
    | Messaging(messaging: MessagingError)

  datatype Op =
    | OpMint(operator: Address, owner: Address, amount: int)
    | OpTransfer(from: Address, to: Address, amount: int)
    | OpTransferFrom(operator: Address, from: Address, to: Address, amount: int)
    | OpBurn(owner: Address, amount: int)
    | OpBurnFrom(operator: Address, owner: Address, amount: int)
    | OpIncrease(owner: Address, operator: Address, amount: int)
    | OpDecrease(owner: Address, operator: Address, amount: int)
    | OpRevoke(owner: Address, operator: Address)
    | OpSetAllowance(owner: Address, operator: Address, amount: int)
    | OpSetBalance(owner: Address, amount: int)

  type Planned = (AddressTable, Result<Option<Effect>, TokenError>)

  function ValidateAmount(amount: int, g: nat): Result<(), TokenError>
    requires g >= 1
  {
    if amount < 0 then Err(InvalidNegative(amount))
    else if amount % g != 0 then Err(NotGranular(amount))
    else Ok(())
  }

  function ValidateAllowance(amount: int): Result<(), TokenError> {
    if amount < 0 then Err(InvalidNegative(amount)) else Ok(())
  }

  /** A failed system call, or a refusal of the state, as an error of the library. */
  function FromMessaging<T>(r: Result<T, MessagingError>): Result<T, TokenError> {
    match r
    case Ok(v) => Ok(v)
    case Err(e) => Err(Messaging(e))
  }

  function FromState<T>(r: Result<T, StateError>): Result<T, TokenError> {
    match r
    case Ok(v) => Ok(v)
    case Err(e) => Err(State(e))
  }

  /** Resolves or creates both accounts, in this order. */
  function InitBoth(t: AddressTable, a: Address, b: Address): (AddressTable, Result<(ActorID, ActorID), TokenError>) {
    var (t1, i) := t.Init(a);
    match i
    case Err(e) => (t1, Err(Messaging(e)))
    case Ok(x) =>
      var (t2, j) := t1.Init(b);
      match j
      case Err(e) => (t2, Err(Messaging(e)))
      case Ok(y) => (t2, Ok((x, y)))
  }

  /** An address that does not resolve never granted nor received an allowance. */
  function NoAllowance(owner: Address, operator: Address, amount: int): TokenError {
    State(InsufficientAllowance(owner, operator, 0, amount))
  }

  function Validate(g: nat, op: Op): Result<(), TokenError>
    requires g >= 1
  {
    match op
    case OpMint(_, _, amount) => ValidateAmount(amount, g)
    case OpTransfer(_, _, amount) => ValidateAmount(amount, g)
    case OpTransferFrom(_, _, _, amount) => ValidateAmount(amount, g)
    case OpBurn(_, amount) => ValidateAmount(amount, g)
    case OpBurnFrom(_, _, amount) => ValidateAmount(amount, g)
    case OpSetBalance(_, amount) => ValidateAmount(amount, g)
    case OpIncrease(_, _, delta) => ValidateAllowance(delta)
    case OpDecrease(_, _, delta) => ValidateAllowance(delta)
    case OpSetAllowance(_, _, amount) => ValidateAllowance(amount)
    case OpRevoke(_, _) => Ok(())
  }

  function PlanRevoke(t: AddressTable, owner: Address, operator: Address): Planned {
    match (t.Resolve(owner), t.Resolve(operator))
    case (Some(o), Some(p)) => (t, Ok(Some(SetAllowance(o, p, 0))))
    case _ => (t, Ok(None))
  }

  /** The effect a valid operation asks for, once its addresses are resolved. */
  function ResolveOp(t: AddressTable, op: Op): Planned {
    match op
    case OpMint(operator, owner, amount) =>
      (match InitBoth(t, operator, owner)
       case (t', Err(e)) => (t', Err(e))
       case (t', Ok((_, o))) => (t', Ok(Some(Mint(o, amount)))))
    case OpTransfer(from, to, amount) =>
      (match InitBoth(t, from, to)
       case (t', Err(e)) => (t', Err(e))
       case (t', Ok((f, r))) => (t', Ok(Some(Transfer(f, r, amount)))))
    case OpTransferFrom(operator, from, to, amount) =>
      if t.Same(operator, from) then (t, Err(InvalidOperator(operator)))
      else if t.Resolve(operator).None? || t.Resolve(from).None? then (t, Err(NoAllowance(from, operator, amount)))
      else
        (match t.Init(to)
         case (t', Err(e)) => (t', Err(Messaging(e)))
         case (t', Ok(r)) =>
           (t', Ok(Some(TransferFrom(t.Resolve(operator).value, t.Resolve(from).value, r, amount)))))
    case OpBurn(owner, amount) =>
      (match t.Init(owner)
       case (t', Err(e)) => (t', Err(Messaging(e)))
       case (t', Ok(o)) => (t', Ok(Some(Burn(o, amount)))))
    case OpBurnFrom(operator, owner, amount) =>
      if t.Same(operator, owner) then (t, Err(InvalidOperator(operator)))
      else if t.Resolve(operator).None? then (t, Err(NoAllowance(owner, operator, amount)))
      // The code reports the unresolved owner in the operator's place.
      else if t.Resolve(owner).None? then (t, Err(NoAllowance(owner, owner, amount)))
      else (t, Ok(Some(BurnFrom(t.Resolve(operator).value, t.Resolve(owner).value, amount))))
    case OpIncrease(owner, operator, delta) =>
      (match InitBoth(t, owner, operator)
       case (t', Err(e)) => (t', Err(e))
       case (t', Ok((o, p))) => (t', Ok(Some(Increase(o, p, delta)))))
    case OpDecrease(owner, operator, delta) =>
      (match InitBoth(t, owner, operator)
       case (t', Err(e)) => (t', Err(e))
       case (t', Ok((o, p))) => (t', Ok(Some(Decrease(o, p, delta)))))
    case OpRevoke(owner, operator) => PlanRevoke(t, owner, operator)
    case OpSetAllowance(owner, operator, amount) =>
      if amount == 0 then PlanRevoke(t, owner, operator)
      else
        (match InitBoth(t, owner, operator)
         case (t', Err(e)) => (t', Err(e))
         case (t', Ok((o, p))) => (t', Ok(Some(SetAllowance(o, p, amount)))))
    case OpSetBalance(owner, amount) =>
      (match t.Init(owner)
       case (t', Err(e)) => (t', Err(Messaging(e)))
       case (t', Ok(o)) => (t', Ok(Some(SetBalance(o, amount)))))
  }

  /** Validation, then resolution. */
  function Plan(t: AddressTable, g: nat, op: Op): Planned
    requires g >= 1
  {
    match Validate(g, op)
    case Err(e) => (t, Err(e))
    case Ok(_) => ResolveOp(t, op)
  }

  /** The change of allowance that an operation makes between resolved actors. */
  function GrantEffect(op: Op, owner: ActorID, operator: ActorID, amount: int): Effect {
    match op
    case OpIncrease(_, _, _) => Increase(owner, operator, amount)
    case OpDecrease(_, _, _) => Decrease(owner, operator, amount)
    case _ => SetAllowance(owner, operator, amount)
  }

  /** Table, ledger and error after an operation. */
  type Stepped = (AddressTable, Ledger, Option<TokenError>)

  function TokenStep(t: AddressTable, g: nat, l: Ledger, op: Op): Stepped
    requires g >= 1
  {
    var (t', plan) := Plan(t, g, op);
    match plan
    case Err(e) => (t', l, Some(e))
    case Ok(None) => (t', l, None)
    case Ok(Some(effect)) =>
      match Refusal(l, effect)
      case Some(e) => (t', l, Some(State(e)))
      case None => (t', Apply(l, effect), None)
  }

  function BalanceAt(t: AddressTable, l: Ledger, a: Address): int {
    match t.Resolve(a)
    case Some(id) => l.Bal(id)
    case None => 0
  }

  function AllowanceAt(t: AddressTable, l: Ledger, owner: Address, operator: Address): int {
    match (t.Resolve(owner), t.Resolve(operator))
    case (Some(o), Some(p)) => l.Allow(o, p)
    case _ => 0
  }

  datatype MintIntermediate = MintIntermediate(recipient: Address)
  datatype TransferIntermediate = TransferIntermediate(from: Address, to: Address)
  datatype TransferFromIntermediate = TransferFromIntermediate(operator: Address, from: Address, to: Address)

  class Token<R> {
    const runtime: Syscalls<R>
    const state: TokenState
    const granularity: nat

    constructor Wrap(runtime: Syscalls<R>, granularity: nat, state: TokenState)
      ensures this.runtime == runtime && this.granularity == granularity && this.state == state
    {
      this.runtime, this.granularity, this.state := runtime, granularity, state;
    }

    ghost predicate Valid()
      reads state
    {
      state.Value().Valid(granularity)
    }

    function Now(error: Option<TokenError>): Stepped
      reads runtime, state
    {
      (runtime.Table(), state.Value(), error)
    }

    ghost function Step(op: Op): Stepped
      requires granularity >= 1
      reads runtime, state
    {
      TokenStep(runtime.Table(), granularity, state.Value(), op)
    }

    method Init(a: Address) returns (r: Result<ActorID, TokenError>)
      modifies runtime
      ensures runtime.root == old(runtime.root) && runtime.written == old(runtime.written)
      ensures var (t, id) := old(runtime.Table()).Init(a); runtime.Table() == t && r == FromMessaging(id)
    {
      var id := runtime.ResolveOrInit(a);
      return FromMessaging(id);
    }

    method InitPair(a: Address, b: Address) returns (r: Result<(ActorID, ActorID), TokenError>)
      modifies runtime
      ensures runtime.root == old(runtime.root) && runtime.written == old(runtime.written)
      ensures (runtime.Table(), r) == InitBoth(old(runtime.Table()), a, b)
      ensures r.Ok? ==>
        runtime.Table().Resolve(a) == Some(r.value.0) && runtime.Table().Resolve(b) == Some(r.value.1)
    {
      var first :- Init(a);
      var second :- Init(b);
      return Ok((first, second));
    }

    method Mint<D>(operator: Address, initialOwner: Address, amount: int, operatorData: D)
      returns (r: Result<ReceiverHook<MintIntermediate, TokenReceived<D>>, TokenError>)
      requires Valid()
      modifies runtime, state
      ensures runtime.root == old(runtime.root) && runtime.written == old(runtime.written)
      ensures Now(ErrorOf(r)) == old(Step(OpMint(operator, initialOwner, amount)))
      ensures r.Err? ==> state.Value() == old(state.Value())
      ensures r.Ok? ==> fresh(r.value) && Holds(r.value, initialOwner, MintIntermediate(initialOwner),
        (runtime.Table().Resolve(operator), Some(runtime.actorId), runtime.Table().Resolve(initialOwner), amount),
        operatorData)
    {
      var _ :- ValidateAmount(amount, granularity);
      var ids :- InitPair(operator, initialOwner);
      var (operatorId, ownerId) := ids;

      var mutableState := new TokenState.Load(state.Value());
      var minted := MintBody(mutableState, granularity, ownerId, amount);
      match minted {
        case Err(e) => r := Err(State(e));
        case Ok(_) =>
          state.Replace(mutableState.Value());
          var params := TokenReceived(operatorId, runtime.actorId, ownerId, amount, operatorData);
          var hook := new ReceiverHook<MintIntermediate, TokenReceived<D>>(
            initialOwner, params, MintIntermediate(initialOwner));
          r := Ok(hook);
      }
    }

    /** The ledger took the effect, or refused it and is what it was. */
    ghost predicate Performed<T>(r: Result<T, TokenError>, l: Ledger, effect: Effect)
      reads state
    {
      match Refusal(l, effect)
      case None => r.Ok? && state.Value() == Apply(l, effect)
      case Some(e) => r == Err(State(e)) && state.Value() == l
    }

    /** The plan of `op`: the table afterwards, and the effect or the error. */
    ghost predicate Resolved(t0: AddressTable, op: Op, r: Result<Effect, TokenError>)
      requires granularity >= 1
      reads runtime
    {
      var (t, plan) := Plan(t0, granularity, op);
      && runtime.Table() == t
      && (match r
          case Ok(effect) => plan == Ok(Some(effect)) && Admissible(granularity, effect)
          case Err(e) => plan == Err(e))
    }

    method ResolveTransfer(from: Address, to: Address, amount: int)
      returns (r: Result<(ActorID, ActorID), TokenError>)
      requires granularity >= 1
      modifies runtime
      ensures runtime.root == old(runtime.root) && runtime.written == old(runtime.written)
      ensures Resolved(old(runtime.Table()), OpTransfer(from, to, amount),
        match r case Ok((f, t)) => Ok(Effect.Transfer(f, t, amount)) case Err(e) => Err(e))
      ensures r.Ok? ==>
        && runtime.Table().Resolve(from) == Some(r.value.0) && runtime.Table().Resolve(to) == Some(r.value.1)
    {
      var _ :- ValidateAmount(amount, granularity);
      r := InitPair(from, to);
    }

    method Move(from: ActorID, to: ActorID, amount: int) returns (r: Result<(), TokenError>)
      requires Valid() && amount >= 0
      modifies state
      ensures Performed(r, old(state.Value()), Effect.Transfer(from, to, amount))
    {
      var mutableState := new TokenState.Load(state.Value());
      var moved := mutableState.MakeTransfer(from, to, amount);
      var _ :- FromState(moved);
      state.Replace(mutableState.Value());
      return Ok(());
    }

    method Transfer<D>(from: Address, to: Address, amount: int, operatorData: D)
      returns (r: Result<ReceiverHook<TransferIntermediate, TokenReceived<D>>, TokenError>)
      requires Valid()
      modifies runtime, state
      ensures runtime.root == old(runtime.root) && runtime.written == old(runtime.written)
      ensures Now(ErrorOf(r)) == old(Step(OpTransfer(from, to, amount)))
      ensures r.Err? ==> state.Value() == old(state.Value())
      ensures r.Ok? ==> fresh(r.value) && Holds(r.value, to, TransferIntermediate(from, to),
        (runtime.Table().Resolve(from), runtime.Table().Resolve(from), runtime.Table().Resolve(to), amount),
        operatorData)
    {
      var ids :- ResolveTransfer(from, to, amount);
      var (fromId, toId) := ids;
      var _ :- Move(fromId, toId, amount);

      var params := TokenReceived(fromId, fromId, toId, amount, operatorData);
      var hook := new ReceiverHook<TransferIntermediate, TokenReceived<D>>(to, params, TransferIntermediate(from, to));
      return Ok(hook);
    }

    method ResolveTransferFrom(operator: Address, from: Address, to: Address, amount: int)
      returns (r: Result<(ActorID, ActorID, ActorID), TokenError>)
      requires granularity >= 1
      modifies runtime
      ensures runtime.root == old(runtime.root) && runtime.written == old(runtime.written)
      ensures Resolved(old(runtime.Table()), OpTransferFrom(operator, from, to, amount),
        match r case Ok((p, f, t)) => Ok(Effect.TransferFrom(p, f, t, amount)) case Err(e) => Err(e))
      ensures r.Ok? ==>
        && runtime.Table().Resolve(operator) == Some(r.value.0)
        && runtime.Table().Resolve(from) == Some(r.value.1) && runtime.Table().Resolve(to) == Some(r.value.2)
    {
      var _ :- ValidateAmount(amount, granularity);
      if runtime.SameAddress(operator, from) { return Err(InvalidOperator(operator)); }
      var operatorId := runtime.ResolveAddress(operator);
      if operatorId.None? { return Err(NoAllowance(from, operator, amount)); }
      var fromId := runtime.ResolveAddress(from);
      if fromId.None? { return Err(NoAllowance(from, operator, amount)); }
      var toId :- Init(to);
      return Ok((operatorId.value, fromId.value, toId));
    }

    method SpendAndMove(operator: ActorID, from: ActorID, to: ActorID, amount: int)
      returns (r: Result<(), TokenError>)
      requires Valid() && amount >= 0
      modifies state
      ensures Performed(r, old(state.Value()), Effect.TransferFrom(operator, from, to, amount))
    {
      var mutableState := new TokenState.Load(state.Value());
      var moved := TransferFromBody(mutableState, granularity, operator, from, to, amount);
      var _ :- FromState(moved);
      state.Replace(mutableState.Value());
      return Ok(());
    }

    method TransferFrom<D>(operator: Address, from: Address, to: Address, amount: int, operatorData: D)
      returns (r: Result<ReceiverHook<TransferFromIntermediate, TokenReceived<D>>, TokenError>)
      requires Valid()
      modifies runtime, state
      ensures runtime.root == old(runtime.root) && runtime.written == old(runtime.written)
      ensures Now(ErrorOf(r)) == old(Step(OpTransferFrom(operator, from, to, amount)))
      ensures r.Err? ==> state.Value() == old(state.Value())
      ensures r.Ok? ==> fresh(r.value) && Holds(r.value, to, TransferFromIntermediate(operator, from, to),
        (runtime.Table().Resolve(operator), runtime.Table().Resolve(from), runtime.Table().Resolve(to), amount),
        operatorData)
    {
      var ids :- ResolveTransferFrom(operator, from, to, amount);
      var (operatorId, fromId, toId) := ids;
      var _ :- SpendAndMove(operatorId, fromId, toId, amount);

      var params := TokenReceived(operatorId, fromId, toId, amount, operatorData);
      var result := TransferFromIntermediate(operator, from, to);
      var hook := new ReceiverHook<TransferFromIntermediate, TokenReceived<D>>(to, params, result);
      return Ok(hook);
    }

    method Burn(owner: Address, amount: int) returns (r: Result<int, TokenError>)
      requires Valid()
      modifies runtime, state
      ensures runtime.root == old(runtime.root) && runtime.written == old(runtime.written)
      ensures Now(ErrorOf(r)) == old(Step(OpBurn(owner, amount)))
      ensures r.Err? ==> state.Value() == old(state.Value())
      ensures r.Ok? ==> r.value == BalanceOf(owner)
    {
      var _ :- ValidateAmount(amount, granularity);
      var ownerId :- Init(owner);

      var mutableState := new TokenState.Load(state.Value());
      var burntResult := BurnBody(mutableState, granularity, ownerId, amount);
      var burnt :- FromState(burntResult);
      state.Replace(mutableState.Value());
      return Ok(burnt);
    }

    /** Returns the owner's balance and the operator's allowance. */
    method BurnFrom(operator: Address, owner: Address, amount: int) returns (r: Result<(int, int), TokenError>)
      requires Valid()
      modifies runtime, state
      ensures runtime.root == old(runtime.root) && runtime.written == old(runtime.written)
      ensures Now(ErrorOf(r)) == old(Step(OpBurnFrom(operator, owner, amount)))
      ensures r.Err? ==> state.Value() == old(state.Value())
      ensures r.Ok? ==> r.value == (BalanceOf(owner), Allowance(owner, operator))
    {
      var _ :- ValidateAmount(amount, granularity);
      if runtime.SameAddress(operator, owner) { return Err(InvalidOperator(operator)); }
      var operatorId := runtime.ResolveAddress(operator);
      if operatorId.None? { return Err(NoAllowance(owner, operator, amount)); }
      var ownerId := runtime.ResolveAddress(owner);
      if ownerId.None? { return Err(NoAllowance(owner, owner, amount)); }

      var mutableState := new TokenState.Load(state.Value());
      var burntResult := BurnFromBody(mutableState, granularity, operatorId.value, ownerId.value, amount);
      var burnt :- FromState(burntResult);
      state.Replace(mutableState.Value());
      return Ok(burnt);
    }

    /** Validation and resolution of a change of allowance. */
    method ResolveGrant(ghost op: Op, owner: Address, operator: Address, amount: int)
      returns (r: Result<(ActorID, ActorID), TokenError>)
      requires granularity >= 1
      requires || op == OpIncrease(owner, operator, amount) || op == OpDecrease(owner, operator, amount)
               || (op == OpSetAllowance(owner, operator, amount) && amount != 0)
      modifies runtime
      ensures runtime.root == old(runtime.root) && runtime.written == old(runtime.written)
      ensures Resolved(old(runtime.Table()), op,
        match r case Ok((o, p)) => Ok(GrantEffect(op, o, p, amount)) case Err(e) => Err(e))
      ensures r.Ok? ==>
        && amount >= 0
        && runtime.Table().Resolve(owner) == Some(r.value.0) && runtime.Table().Resolve(operator) == Some(r.value.1)
    {
      var _ :- ValidateAllowance(amount);
      r := InitPair(owner, operator);
    }

    /** Returns the new allowance. */
    method Raise(owner: ActorID, operator: ActorID, delta: int) returns (r: int)
      requires Valid() && delta >= 0
      modifies state
      ensures state.Value() == Apply(old(state.Value()), Increase(owner, operator, delta))
      ensures r == state.Value().Allow(owner, operator)
    {
      AllowIsNonNegative(state.Value(), owner, operator);
      WithAllowKeeps(state.Value(), owner, operator, state.Value().Allow(owner, operator) + delta);
      var changed := state.ChangeAllowanceBy(owner, operator, delta);
      return changed.value;
    }

    /** Returns the new allowance. */
    method Lower(owner: ActorID, operator: ActorID, delta: int) returns (r: int)
      requires Valid() && delta >= 0
      modifies state
      ensures state.Value() == Apply(old(state.Value()), Decrease(owner, operator, delta))
      ensures r == state.Value().Allow(owner, operator)
    {
      var changed := state.ChangeAllowanceBy(owner, operator, -delta);
      WithAllowKeeps(old(state.Value()), owner, operator, changed.value);
      return changed.value;
    }

    method IncreaseAllowance(owner: Address, operator: Address, delta: int) returns (r: Result<int, TokenError>)
      requires Valid()
      modifies runtime, state
      ensures runtime.root == old(runtime.root) && runtime.written == old(runtime.written)
      ensures Now(ErrorOf(r)) == old(Step(OpIncrease(owner, operator, delta)))
      ensures r.Err? ==> state.Value() == old(state.Value())
      ensures r.Ok? ==> r.value == Allowance(owner, operator)
    {
      var ids :- ResolveGrant(OpIncrease(owner, operator, delta), owner, operator, delta);
      var allowance := Raise(ids.0, ids.1, delta);
      return Ok(allowance);
    }

    method DecreaseAllowance(owner: Address, operator: Address, delta: int) returns (r: Result<int, TokenError>)
      requires Valid()
      modifies runtime, state
      ensures runtime.root == old(runtime.root) && runtime.written == old(runtime.written)
      ensures Now(ErrorOf(r)) == old(Step(OpDecrease(owner, operator, delta)))
      ensures r.Err? ==> state.Value() == old(state.Value())
      ensures r.Ok? ==> r.value == Allowance(owner, operator)
    {
      var ids :- ResolveGrant(OpDecrease(owner, operator, delta), owner, operator, delta);
      var allowance := Lower(ids.0, ids.1, delta);
      return Ok(allowance);
    }

    /** Returns the old allowance. */
    method RevokeAllowance(owner: Address, operator: Address) returns (r: Result<int, TokenError>)
      requires Valid()
      modifies runtime, state
      ensures runtime.root == old(runtime.root) && runtime.written == old(runtime.written)
      ensures Now(ErrorOf(r)) == old(Step(OpRevoke(owner, operator)))
      ensures r.Err? ==> state.Value() == old(state.Value())
      ensures r == Ok(old(Allowance(owner, operator)))
    {
      var ownerId := runtime.ResolveAddress(owner);
      if ownerId.None? { return Ok(0); }
      var operatorId := runtime.ResolveAddress(operator);
      if operatorId.None? { return Ok(0); }
      var revoked := state.RevokeAllowance(ownerId.value, operatorId.value);
      return Ok(revoked.value);
    }

    /** Returns the old allowance. */
    method SetAllowance(owner: Address, operator: Address, amount: int) returns (r: Result<int, TokenError>)
      requires Valid()
      modifies runtime, state
      ensures runtime.root == old(runtime.root) && runtime.written == old(runtime.written)
      ensures Now(ErrorOf(r)) == old(Step(OpSetAllowance(owner, operator, amount)))
      ensures r.Err? ==> state.Value() == old(state.Value())
      ensures r.Ok? ==> r.value == AllowanceAt(runtime.Table(), old(state.Value()), owner, operator)
    {
      if amount == 0 {
        r := RevokeAllowance(owner, operator);
        return;
      }
      var ids :- ResolveGrant(OpSetAllowance(owner, operator, amount), owner, operator, amount);
      var previous := state.SetAllowance(ids.0, ids.1, amount);
      return Ok(previous.value);
    }

    /** Returns the old balance. */
    method SetBalance(owner: Address, amount: int) returns (r: Result<int, TokenError>)
      requires Valid()
      modifies runtime, state
      ensures runtime.root == old(runtime.root) && runtime.written == old(runtime.written)
      ensures Now(ErrorOf(r)) == old(Step(OpSetBalance(owner, amount)))
      ensures r.Err? ==> state.Value() == old(state.Value())
      ensures r.Ok? ==> r.value == BalanceAt(runtime.Table(), old(state.Value()), owner) && BalanceOf(owner) == amount
    {
      var _ :- ValidateAmount(amount, granularity);
      var ownerId :- Init(owner);

      var mutableState := new TokenState.Load(state.Value());
      var replaced := SetBalanceBody(mutableState, granularity, ownerId, amount);
      match replaced {
        case Err(e) => r := Err(State(e));
        case Ok(oldBalance) =>
          state.Replace(mutableState.Value());
          r := Ok(oldBalance);
      }
    }

    function BalanceOf(owner: Address): (r: int)
      reads runtime, state
      ensures r == BalanceAt(runtime.Table(), state.Value(), owner)
      ensures runtime.Table().Resolve(owner).Some? ==> r == state.Value().Bal(runtime.Table().Resolve(owner).value)
      ensures runtime.Table().Resolve(owner).None? ==> r == 0
    {
      match runtime.ResolveAddress(owner)
      case Some(id) => state.GetBalance(id)
      case None => 0
    }

    function Allowance(owner: Address, operator: Address): (r: int)
      reads runtime, state
      ensures r == AllowanceAt(runtime.Table(), state.Value(), owner, operator)
      ensures var o, p := runtime.Table().Resolve(owner), runtime.Table().Resolve(operator);
              r == if o.Some? && p.Some? then state.Value().Allow(o.value, p.value) else 0
    {
      match runtime.ResolveAddress(owner)
      case None => 0
      case Some(o) =>
        match runtime.ResolveAddress(operator)
        case None => 0
        case Some(p) => state.GetAllowanceBetween(o, p)
    }
  }

  function ErrorOf<T>(r: Result<T, TokenError>): Option<TokenError> {
    match r
    case Ok(_) => None
    case Err(e) => Some(e)
  }

  /** A fresh hook, not yet called, addressed to `to` and describing the movement `what`. */
  ghost predicate Holds<T, D>(hook: ReceiverHook<T, TokenReceived<D>>, to: Address, result: T,
                              what: (Option<ActorID>, Option<ActorID>, Option<ActorID>, int), operatorData: D)
    reads hook
  {
    && hook.Valid() && !hook.called && hook.address == to && hook.result == Some(result)
    && what.0.Some? && what.1.Some? && what.2.Some?
    && hook.params == Some(TokenReceived(what.0.value, what.1.value, what.2.value, what.3, operatorData))
  }

  // ---------------------------------------------------------------- what every operation keeps

  /** No operation between addresses, whatever its outcome, breaks the ledger. */
  lemma TokenStepKeepsValid(t: AddressTable, g: nat, l: Ledger, op: Op)
    requires l.Valid(g)
    ensures TokenStep(t, g, l, op).1.Valid(g)
  {
    match Plan(t, g, op).1
    case Ok(Some(effect)) =>
      if Refusal(l, effect).None? {
        ApplyKeepsValid(l, g, effect);
      }
    case _ =>
  }

  /** Operations create accounts but never rebind an address. */
  lemma TokenStepKeepsTable(t: AddressTable, g: nat, l: Ledger, op: Op)
    requires g >= 1 && t.Consistent()
    ensures TokenStep(t, g, l, op).0.Consistent() && TokenStep(t, g, l, op).0.Extends(t)
  {
    ResolveOpKeepsTable(t, op);
    assert TokenStep(t, g, l, op).0 == Plan(t, g, op).0;
  }

  lemma ResolveOpKeepsTable(t: AddressTable, op: Op)
    requires t.Consistent()
    ensures ResolveOp(t, op).0.Consistent() && ResolveOp(t, op).0.Extends(t)
  {
    var t' := ResolveOp(t, op).0;
    match op
    case OpMint(a, b, _) => assert t' == InitBoth(t, a, b).0; InitBothKeepsTable(t, a, b);
    case OpTransfer(a, b, _) => assert t' == InitBoth(t, a, b).0; InitBothKeepsTable(t, a, b);
    case OpIncrease(a, b, _) => assert t' == InitBoth(t, a, b).0; InitBothKeepsTable(t, a, b);
    case OpDecrease(a, b, _) => assert t' == InitBoth(t, a, b).0; InitBothKeepsTable(t, a, b);
    case OpSetAllowance(a, b, _) => assert t' == t || t' == InitBoth(t, a, b).0; InitBothKeepsTable(t, a, b);
    case OpTransferFrom(_, _, a, _) => assert t' == t || t' == t.Init(a).0; InitKeepsTable(t, a);
    case OpBurn(a, _) => assert t' == t.Init(a).0; InitKeepsTable(t, a);
    case OpSetBalance(a, _) => assert t' == t.Init(a).0; InitKeepsTable(t, a);
    case _ => assert t' == t;
  }

  lemma InitBothKeepsTable(t: AddressTable, a: Address, b: Address)
    requires t.Consistent()
    ensures InitBoth(t, a, b).0.Consistent() && InitBoth(t, a, b).0.Extends(t)
  {
    InitKeepsTable(t, a);
    if t.Init(a).1.Ok? {
      InitKeepsTable(t.Init(a).0, b);
      ExtendsTransitive(t, t.Init(a).0, t.Init(a).0.Init(b).0);
    }
  }

  /** The allowance check of an operator-initiated movement is only ever reached by an operator that
      is not the owner, whatever mix of address forms names the two. */
  lemma OperatorIsNotOwner(t: AddressTable, g: nat, op: Op)
    requires g >= 1 && t.Consistent()
    requires op.OpTransferFrom? || op.OpBurnFrom?
    ensures match Plan(t, g, op).1
            case Ok(Some(TransferFrom(operator, from, _, _))) => operator != from
            case Ok(Some(BurnFrom(operator, owner, _))) => operator != owner
            case Ok(_) => false
            case Err(_) => true
  {
    var owner := if op.OpTransferFrom? then op.from else op.owner;
    if t.Resolve(op.operator).Some? && t.Resolve(owner).Some? {
      SameIsIdentity(t, op.operator, owner);
    }
  }

  /** What is planned has passed validation, and is of the kind the operation asks for. */
  lemma PlanIsAdmissible(t: AddressTable, g: nat, op: Op)
    requires g >= 1
    ensures match Plan(t, g, op).1
            case Ok(Some(effect)) =>
              && Admissible(g, effect)
              && (effect.SetBalance? ==> op.OpSetBalance?)
              && (effect.Mint? ==> op.OpMint?)
            case _ => true
  {
  }

  /** The actors and the amount of a planned effect are those the operation names: each actor is the
      one its address resolves to once the operation is over. */
  lemma PlanNamesActors(t: AddressTable, g: nat, op: Op)
    requires g >= 1
    ensures match Plan(t, g, op)
            case (t', Ok(Some(e))) => Names(t', op, e)
            case _ => true
  {
  }

  predicate Names(t: AddressTable, op: Op, e: Effect) {
    match (op, e)
    case (OpMint(_, owner, amount), Mint(o, v)) => t.Resolve(owner) == Some(o) && v == amount
    case (OpTransfer(from, to, amount), Transfer(f, r, v)) =>
      t.Resolve(from) == Some(f) && t.Resolve(to) == Some(r) && v == amount
    case (OpTransferFrom(operator, from, to, amount), TransferFrom(p, f, r, v)) =>
      && t.Resolve(operator) == Some(p) && t.Resolve(from) == Some(f) && t.Resolve(to) == Some(r)
      && v == amount
    case (OpBurn(owner, amount), Burn(o, v)) => t.Resolve(owner) == Some(o) && v == amount
    case (OpBurnFrom(operator, owner, amount), BurnFrom(p, o, v)) =>
      t.Resolve(operator) == Some(p) && t.Resolve(owner) == Some(o) && v == amount
    case (OpIncrease(owner, operator, delta), Increase(o, p, v)) =>
      t.Resolve(owner) == Some(o) && t.Resolve(operator) == Some(p) && v == delta
    case (OpDecrease(owner, operator, delta), Decrease(o, p, v)) =>
      t.Resolve(owner) == Some(o) && t.Resolve(operator) == Some(p) && v == delta
    case (OpRevoke(owner, operator), SetAllowance(o, p, v)) =>
      t.Resolve(owner) == Some(o) && t.Resolve(operator) == Some(p) && v == 0
    case (OpSetAllowance(owner, operator, amount), SetAllowance(o, p, v)) =>
      t.Resolve(owner) == Some(o) && t.Resolve(operator) == Some(p) && v == amount
    case (OpSetBalance(owner, amount), SetBalance(o, v)) => t.Resolve(owner) == Some(o) && v == amount
    case _ => false
  }

  // ---------------------------------------------------------------- allowances to oneself

  /** The two operations that store an allowance from an account to itself. */
  predicate SelfGrant(e: Effect) {
    match e
    case Increase(owner, operator, delta) => owner == operator && delta > 0
    case SetAllowance(owner, operator, amount) => owner == operator && amount > 0
    case _ => false
  }

  /** An allowance from an account to itself is refused nowhere: an effect leaves the ledger without
      one, as the checker wants it, exactly when it is not a self-grant. */
  lemma SelfAllowanceExactly(l: Ledger, g: nat, e: Effect)
    requires l.Valid(g) && NoSelfAllowance(l) && Admissible(g, e) && Refusal(l, e).None?
    ensures NoSelfAllowance(Apply(l, e)) <==> !SelfGrant(e)
  {
    match e
    case TransferFrom(operator, from, _, amount) =>
      SetKeepsNoSelf(l, from, operator, l.Allow(from, operator) - amount);
      assert Apply(l, e).allowances == Spend(l, operator, from, amount).allowances;
    case BurnFrom(operator, owner, amount) =>
      SetKeepsNoSelf(l, owner, operator, l.Allow(owner, operator) - amount);
      assert Apply(l, e).allowances == Spend(l, operator, owner, amount).allowances;
    case Increase(owner, operator, delta) =>
      SetKeepsNoSelf(l, owner, operator, l.Allow(owner, operator) + delta);
    case Decrease(owner, operator, delta) =>
      var rest := l.Allow(owner, operator) - delta;
      SetKeepsNoSelf(l, owner, operator, if rest > 0 then rest else 0);
    case SetAllowance(owner, operator, amount) =>
      SetKeepsNoSelf(l, owner, operator, amount);
    case _ =>
  }

  lemma SetKeepsNoSelf(l: Ledger, o: ActorID, p: ActorID, v: int)
    requires l.Canonical() && NoSelfAllowance(l) && v >= 0
    ensures NoSelfAllowance(l.WithAllow(o, p, v)) <==> o != p || v == 0
    ensures o == p ==> l.Allow(o, p) == 0
    ensures l.Allow(o, p) >= 0
  {
    var m := l.allowances.content;
    var m' := PutAllowance(m, o, p, v);
    forall x | x in m' && (o != p || v == 0) ensures x !in m'[x].content {
      assert x == o ==> (o in m'[x].content ==> o in Inner(m, o));
    }
    if o == p && v > 0 {
      assert o in m' && o in m'[o].content;
    }
  }
}
