/**
 The NFT library: calls between addresses.  `Plan` resolves the addresses; the call then runs on a
 copy of the state, which replaces the state if nothing failed.
 */
module NftLibrary {
  import opened Basics
  import opened Addresses
  import opened NftLedgers
  import opened NftStates
  import opened NftRuns
  import opened ReceiverHooks

  datatype LibraryError =
    | State(state: NftError)
    | Messaging(messaging: MessagingError)

  /** The CID of a saved state. */
  datatype NftRoot = NftRoot(content: Nft)

  datatype Op =
    | OpMint(operator: Address, owner: Address, metadatas: seq<string>)
    | OpBurn(owner: Address, ids: seq<TokenID>)
    | OpBurnFrom(owner: Address, operator: Address, ids: seq<TokenID>)
    | OpApprove(owner: Address, operator: Address, ids: seq<TokenID>)
    | OpRevoke(owner: Address, operator: Address, ids: seq<TokenID>)
    | OpApproveAccount(owner: Address, operator: Address)
    | OpRevokeAccount(owner: Address, operator: Address)
    | OpTransfer(owner: Address, recipient: Address, ids: seq<TokenID>)
    | OpTransferFrom(owner: Address, operator: Address, recipient: Address, ids: seq<TokenID>)

  type Planned = (AddressTable, Result<Option<Call>, LibraryError>)

  function NotResolved(a: Address): LibraryError {
    Messaging(AddressNotResolved(a))
  }

  function Plan(t: AddressTable, op: Op): Planned {
    match op
    case OpMint(operator, owner, metadatas) =>
      if t.Resolve(operator).None? then (t, Err(NotResolved(operator)))
      else
        (match t.Init(owner)
         case (t', Err(e)) => (t', Err(Messaging(e)))
         case (t', Ok(o)) => (t', Ok(Some(Mint(o, metadatas)))))
    case OpBurn(owner, ids) =>
      (match t.Resolve(owner)
       case None => (t, Err(NotResolved(owner)))
       case Some(o) => (t, Ok(Some(Burn(o, ids)))))
    case OpBurnFrom(owner, operator, ids) =>
      if t.Resolve(operator).None? then (t, Err(NotResolved(operator)))
      else
        (match t.Init(owner)
         case (t', Err(e)) => (t', Err(Messaging(e)))
         case (t', Ok(o)) => (t', Ok(Some(BurnFrom(o, t.Resolve(operator).value, ids)))))
    case OpApprove(owner, operator, ids) =>
      if t.Resolve(owner).None? then (t, Err(NotResolved(owner)))
      else
        (match t.Init(operator)
         case (t', Err(e)) => (t', Err(Messaging(e)))
         case (t', Ok(p)) => (t', Ok(Some(Approve(t.Resolve(owner).value, p, ids)))))
    case OpRevoke(owner, operator, ids) =>
      if t.Resolve(owner).None? then (t, Err(NotResolved(owner)))
      else
        (match t.Resolve(operator)
         case None => (t, Ok(None))
         case Some(p) => (t, Ok(Some(Revoke(t.Resolve(owner).value, p, ids)))))
    case OpApproveAccount(owner, operator) =>
      if t.Resolve(owner).None? then (t, Err(NotResolved(owner)))
      else
        (match t.Init(operator)
         case (t', Err(e)) => (t', Err(Messaging(e)))
         case (t', Ok(p)) => (t', Ok(Some(ApproveAccount(t.Resolve(owner).value, p)))))
    case OpRevokeAccount(owner, operator) =>
      if t.Resolve(owner).None? then (t, Err(NotResolved(owner)))
      else
        (match t.Resolve(operator)
         case None => (t, Ok(None))
         case Some(p) => (t, Ok(Some(RevokeAccount(t.Resolve(owner).value, p)))))
    case OpTransfer(owner, recipient, ids) =>
      (match t.Init(owner)
       case (t', Err(e)) => (t', Err(Messaging(e)))
       case (t', Ok(o)) =>
         match t'.Init(recipient)
         case (t'', Err(e)) => (t'', Err(Messaging(e)))
         case (t'', Ok(r)) => (t'', Ok(Some(Transfer(o, r, ids)))))
    case OpTransferFrom(owner, operator, recipient, ids) =>
      if t.Resolve(owner).None? then (t, Err(NotResolved(owner)))
      else if t.Resolve(operator).None? then (t, Err(NotResolved(operator)))
      else
        match t.Init(recipient)
        case (t', Err(e)) => (t', Err(Messaging(e)))
        case (t', Ok(r)) =>
          (t', Ok(Some(TransferFrom(t.Resolve(owner).value, t.Resolve(operator).value, r, ids))))
  }

  /** Table, ledger and error after an operation; an error leaves the ledger as it was. */
  type Stepped = (AddressTable, Nft, Option<LibraryError>)

  function LibraryStep(t: AddressTable, n: Nft, op: Op): Stepped {
    match Plan(t, op)
    case (t', Err(e)) => (t', n, Some(e))
    case (t', Ok(None)) => (t', n, None)
    case (t', Ok(Some(call))) =>
      match Step(n, call)
      case Err(e) => (t', n, Some(State(e)))
      case Ok(n') => (t', n', None)
  }

  /** A failed system call, or a refusal of the state, as an error of the library. */
  function FromMessaging<T>(r: Result<T, MessagingError>): Result<T, LibraryError> {
    match r
    case Ok(v) => Ok(v)
    case Err(e) => Err(Messaging(e))
  }

  function FromState<T>(r: Result<T, NftError>): Result<T, LibraryError> {
    match r
    case Ok(v) => Ok(v)
    case Err(e) => Err(State(e))
  }

  function ErrorOf<T>(r: Result<T, LibraryError>): Option<LibraryError> {
    match r
    case Ok(_) => None
    case Err(e) => Some(e)
  }

  /** What the recipient of tokens is told; `D` is the operator data passed through to it. */
  datatype NftReceived<D> = NftReceived(to: ActorID, operator: ActorID, tokenIds: seq<TokenID>, operatorData: D)

  datatype MintIntermediate = MintIntermediate(to: ActorID, tokenIds: seq<TokenID>, recipientData: seq<bv8>)
  datatype TransferIntermediate =
    TransferIntermediate(tokenIds: seq<TokenID>, from: ActorID, to: ActorID, recipientData: seq<bv8>)

  datatype MintReturn = MintReturn(balance: int, supply: U64, tokenIds: seq<TokenID>, recipientData: seq<bv8>)
  datatype TransferReturn = TransferReturn(fromBalance: int, toBalance: int, tokenIds: seq<TokenID>)

  /** A fresh hook, not yet called, with this message and intermediate result. */
  ghost predicate Holds<T, P>(hook: ReceiverHook<T, P>, address: Address, params: P, result: T)
    reads hook
  {
    && hook.Valid() && !hook.called && hook.address == address
    && hook.params == Some(params) && hook.result == Some(result)
  }

  /** The ids from `first` up to `next`. */
  function NewIds(first: U64, next: U64): seq<TokenID> {
    seq(if first <= next then next - first else 0, (i: nat) => first + i)
  }

  class NFT {
    const runtime: Syscalls<NftRoot>
    const state: NFTState

    constructor Wrap(runtime: Syscalls<NftRoot>, state: NFTState)
      ensures this.runtime == runtime && this.state == state
    {
      this.runtime, this.state := runtime, state;
    }

    function Now(error: Option<LibraryError>): Stepped
      reads runtime, state
    {
      (runtime.Table(), state.Value(), error)
    }

    ghost function Spec(op: Op): Stepped
      reads runtime, state
    {
      LibraryStep(runtime.Table(), state.Value(), op)
    }

    function ResolveId(a: Address): Result<ActorID, LibraryError>
      reads runtime
    {
      match runtime.ResolveAddress(a)
      case Some(id) => Ok(id)
      case None => Err(NotResolved(a))
    }

    method Init(a: Address) returns (r: Result<ActorID, LibraryError>)
      modifies runtime
      ensures runtime.root == old(runtime.root)
      ensures var (t, id) := old(runtime.Table()).Init(a); runtime.Table() == t && r == FromMessaging(id)
      ensures r.Ok? ==> runtime.Table().Resolve(a) == Some(r.value)
    {
      var id := runtime.ResolveOrInit(a);
      return FromMessaging(id);
    }

    /** The plan of `op`: the table afterwards, and the call or the error. */
    ghost predicate Resolved(t0: AddressTable, op: Op, r: Result<Call, LibraryError>)
      reads runtime
    {
      var (t, plan) := Plan(t0, op);
      && runtime.Table() == t
      && (match r case Ok(call) => plan == Ok(Some(call)) case Err(e) => plan == Err(e))
    }

    /** The ledger took the call, or refused it and is what it was. */
    ghost predicate Performed<T>(r: Result<T, LibraryError>, n: Nft, call: Call)
      reads state
    {
      match Step(n, call)
      case Ok(n') => r.Ok? && state.Value() == n'
      case Err(e) => r == Err(State(e)) && state.Value() == n
    }

    method ResolveMint(operator: Address, initialOwner: Address, ghost metadatas: seq<string>)
      returns (r: Result<(ActorID, ActorID), LibraryError>)
      modifies runtime
      ensures runtime.root == old(runtime.root)
      ensures Resolved(old(runtime.Table()), OpMint(operator, initialOwner, metadatas),
        match r case Ok((_, o)) => Ok(Call.Mint(o, metadatas)) case Err(e) => Err(e))
      ensures r.Ok? ==>
        && runtime.Table().Resolve(operator) == Some(r.value.0)
        && runtime.Table().Resolve(initialOwner) == Some(r.value.1)
    {
      var operatorId :- ResolveId(operator);
      var ownerId :- Init(initialOwner);
      return Ok((operatorId, ownerId));
    }

    method MintTo(owner: ActorID, metadatas: seq<string>) returns (ids: seq<TokenID>)
      modifies state
      ensures state.Value() == MintTokens(old(state.Value()), owner, metadatas)
      ensures ids == NewIds(old(state.nextToken), state.nextToken)
    {
      var mutableState := new NFTState.Load(state.Value());
      ids := mutableState.MintTokens(owner, metadatas);
      state.Replace(mutableState.Value());
    }

    method ResolveTransfer(owner: Address, recipient: Address, ghost ids: seq<TokenID>)
      returns (r: Result<(ActorID, ActorID), LibraryError>)
      modifies runtime
      ensures runtime.root == old(runtime.root)
      ensures Resolved(old(runtime.Table()), OpTransfer(owner, recipient, ids),
        match r case Ok((o, to)) => Ok(Call.Transfer(o, to, ids)) case Err(e) => Err(e))
      ensures r.Ok? ==>
        && runtime.Table().Resolve(owner) == Some(r.value.0)
        && runtime.Table().Resolve(recipient) == Some(r.value.1)
    {
      var ownerId :- Init(owner);
      var recipientId :- Init(recipient);
      return Ok((ownerId, recipientId));
    }

    /** A batch that fails half-way has changed the copy only. */
    method MoveOwned(owner: ActorID, recipient: ActorID, ids: seq<TokenID>) returns (r: Result<(), LibraryError>)
      modifies state
      ensures Performed(r, old(state.Value()), Call.Transfer(owner, recipient, ids))
    {
      var mutableState := new NFTState.Load(state.Value());
      var moved := mutableState.Transfer(ids, recipient, OwnsCheck(owner));
      var _ :- FromState(moved);
      state.Replace(mutableState.Value());
      return Ok(());
    }

    method ResolveTransferFrom(owner: Address, operator: Address, recipient: Address, ghost ids: seq<TokenID>)
      returns (r: Result<(ActorID, ActorID, ActorID), LibraryError>)
      modifies runtime
      ensures runtime.root == old(runtime.root)
      ensures Resolved(old(runtime.Table()), OpTransferFrom(owner, operator, recipient, ids),
        match r case Ok((o, p, to)) => Ok(Call.TransferFrom(o, p, to, ids)) case Err(e) => Err(e))
      ensures r.Ok? ==>
        && runtime.Table().Resolve(owner) == Some(r.value.0)
        && runtime.Table().Resolve(recipient) == Some(r.value.2)
    {
      var ownerId :- ResolveId(owner);
      var operatorId :- ResolveId(operator);
      var recipientId :- Init(recipient);
      return Ok((ownerId, operatorId, recipientId));
    }

    method MoveAsOperator(owner: ActorID, operator: ActorID, recipient: ActorID, ids: seq<TokenID>)
      returns (r: Result<(), LibraryError>)
      modifies state
      ensures Performed(r, old(state.Value()), Call.TransferFrom(owner, operator, recipient, ids))
    {
      var mutableState := new NFTState.Load(state.Value());
      var moved := TransferFromBody(mutableState, owner, operator, recipient, ids);
      var _ :- FromState(moved);
      state.Replace(mutableState.Value());
      return Ok(());
    }

    /** The hook tells the new owner the ids of its tokens. */
    method Mint<D>(operator: Address, initialOwner: Address, metadatas: seq<string>, operatorData: D)
      returns (r: Result<ReceiverHook<MintIntermediate, NftReceived<D>>, LibraryError>)
      modifies runtime, state
      ensures runtime.root == old(runtime.root)
      ensures Now(ErrorOf(r)) == old(Spec(OpMint(operator, initialOwner, metadatas)))
      ensures r.Err? ==> state.Value() == old(state.Value())
      ensures r.Ok? ==>
        var ids := NewIds(old(state.nextToken), state.nextToken);
        var o, p := runtime.Table().Resolve(initialOwner), runtime.Table().Resolve(operator);
        && fresh(r.value) && o.Some? && p.Some?
        && Holds(r.value, initialOwner, NftReceived(o.value, p.value, ids, operatorData),
                 MintIntermediate(o.value, ids, []))
    {
      var actors :- ResolveMint(operator, initialOwner, metadatas);
      var (operatorId, ownerId) := actors;
      var ids := MintTo(ownerId, metadatas);
      var params := NftReceived(ownerId, operatorId, ids, operatorData);
      var hook := new ReceiverHook<MintIntermediate, NftReceived<D>>(
        initialOwner, params, MintIntermediate(ownerId, ids, []));
      return Ok(hook);
    }

    /** Returns the owner's new balance. */
    method Burn(owner: Address, ids: seq<TokenID>) returns (r: Result<U64, LibraryError>)
      modifies runtime, state
      ensures runtime.root == old(runtime.root)
      ensures Now(ErrorOf(r)) == old(Spec(OpBurn(owner, ids)))
      ensures r.Err? ==> state.Value() == old(state.Value())
      ensures r.Ok? ==> OwnerHas(owner, r.value)
    {
      var ownerId :- ResolveId(owner);
      var mutableState := new NFTState.Load(state.Value());
      var result := mutableState.BurnTokens(ownerId, ids, OwnsCheck(ownerId));
      var balance :- FromState(result);
      state.Replace(mutableState.Value());
      return Ok(balance);
    }

    /** Returns the owner's new balance. */
    method BurnFrom(owner: Address, operator: Address, ids: seq<TokenID>) returns (r: Result<U64, LibraryError>)
      modifies runtime, state
      ensures runtime.root == old(runtime.root)
      ensures Now(ErrorOf(r)) == old(Spec(OpBurnFrom(owner, operator, ids)))
      ensures r.Err? ==> state.Value() == old(state.Value())
      ensures r.Ok? ==> OwnerHas(owner, r.value)
    {
      var operatorId :- ResolveId(operator);
      var ownerId :- Init(owner);
      r := BurnAsOperator(ownerId, operatorId, ids);
    }

    method ApproveOwned(owner: ActorID, operator: ActorID, ids: seq<TokenID>) returns (r: Result<(), LibraryError>)
      modifies state
      ensures Performed(r, old(state.Value()), Call.Approve(owner, operator, ids))
    {
      var mutableState := new NFTState.Load(state.Value());
      var approved := mutableState.ApproveForTokens(operator, ids, OwnsCheck(owner));
      var _ :- FromState(approved);
      state.Replace(mutableState.Value());
      return Ok(());
    }

    method RevokeOwned(owner: ActorID, operator: ActorID, ids: seq<TokenID>) returns (r: Result<(), LibraryError>)
      modifies state
      ensures Performed(r, old(state.Value()), Call.Revoke(owner, operator, ids))
    {
      var mutableState := new NFTState.Load(state.Value());
      var revoked := mutableState.RevokeForTokens(operator, ids, OwnsCheck(owner));
      var _ :- FromState(revoked);
      state.Replace(mutableState.Value());
      return Ok(());
    }

    method BurnAsOperator(owner: ActorID, operator: ActorID, ids: seq<TokenID>) returns (r: Result<U64, LibraryError>)
      modifies state
      ensures Performed(r, old(state.Value()), Call.BurnFrom(owner, operator, ids))
      ensures r.Ok? ==> r.value == state.GetBalance(owner)
    {
      var mutableState := new NFTState.Load(state.Value());
      var burnt := BurnFromBody(mutableState, owner, operator, ids);
      var balance :- FromState(burnt);
      state.Replace(mutableState.Value());
      return Ok(balance);
    }

    method Approve(owner: Address, operator: Address, ids: seq<TokenID>) returns (r: Result<(), LibraryError>)
      modifies runtime, state
      ensures runtime.root == old(runtime.root)
      ensures Now(ErrorOf(r)) == old(Spec(OpApprove(owner, operator, ids)))
      ensures r.Err? ==> state.Value() == old(state.Value())
    {
      var callerId :- ResolveId(owner);
      var operatorId :- Init(operator);
      r := ApproveOwned(callerId, operatorId, ids);
    }

    method Revoke(owner: Address, operator: Address, ids: seq<TokenID>) returns (r: Result<(), LibraryError>)
      modifies runtime, state
      ensures runtime.root == old(runtime.root)
      ensures Now(ErrorOf(r)) == old(Spec(OpRevoke(owner, operator, ids)))
      ensures r.Err? ==> state.Value() == old(state.Value())
    {
      var callerId :- ResolveId(owner);
      var operatorId := runtime.ResolveAddress(operator);
      if operatorId.None? { return Ok(()); }
      r := RevokeOwned(callerId, operatorId.value, ids);
    }

    method ApproveAccountOf(owner: ActorID, operator: ActorID)
      modifies state
      ensures state.Value() == NftLedgers.ApproveForOwner(old(state.Value()), owner, operator)
    {
      var mutableState := new NFTState.Load(state.Value());
      mutableState.ApproveForOwner(owner, operator);
      state.Replace(mutableState.Value());
    }

    method ApproveForOwner(owner: Address, operator: Address) returns (r: Result<(), LibraryError>)
      modifies runtime, state
      ensures runtime.root == old(runtime.root)
      ensures Now(ErrorOf(r)) == old(Spec(OpApproveAccount(owner, operator)))
      ensures r.Err? ==> state.Value() == old(state.Value())
    {
      var ownerId :- ResolveId(owner);
      var operatorId :- Init(operator);
      ApproveAccountOf(ownerId, operatorId);
      return Ok(());
    }

    method RevokeForAll(owner: Address, operator: Address) returns (r: Result<(), LibraryError>)
      modifies runtime, state
      ensures runtime.root == old(runtime.root)
      ensures Now(ErrorOf(r)) == old(Spec(OpRevokeAccount(owner, operator)))
      ensures r.Err? ==> state.Value() == old(state.Value())
    {
      var ownerId :- ResolveId(owner);
      var operatorId := runtime.ResolveAddress(operator);
      if operatorId.None? { return Ok(()); }
      var mutableState := new NFTState.Load(state.Value());
      mutableState.RevokeForAll(ownerId, operatorId.value);
      state.Replace(mutableState.Value());
      return Ok(());
    }

    method Transfer<D>(owner: Address, recipient: Address, ids: seq<TokenID>, operatorData: D)
      returns (r: Result<ReceiverHook<TransferIntermediate, NftReceived<D>>, LibraryError>)
      modifies runtime, state
      ensures runtime.root == old(runtime.root)
      ensures Now(ErrorOf(r)) == old(Spec(OpTransfer(owner, recipient, ids)))
      ensures r.Err? ==> state.Value() == old(state.Value())
      ensures r.Ok? ==>
        var o, to := runtime.Table().Resolve(owner), runtime.Table().Resolve(recipient);
        && fresh(r.value) && o.Some? && to.Some?
        && Holds(r.value, recipient, NftReceived(to.value, o.value, ids, operatorData),
                 TransferIntermediate(ids, o.value, to.value, []))
    {
      var actors :- ResolveTransfer(owner, recipient, ids);
      var (ownerId, recipientId) := actors;
      var _ :- MoveOwned(ownerId, recipientId, ids);
      var hook := TransferHook(recipient, recipientId, ownerId, ids, operatorData);
      return Ok(hook);
    }

    /** The hook names the owner, not the operator, as operator. */
    method TransferFrom<D>(owner: Address, operator: Address, recipient: Address, ids: seq<TokenID>, operatorData: D)
      returns (r: Result<ReceiverHook<TransferIntermediate, NftReceived<D>>, LibraryError>)
      modifies runtime, state
      ensures runtime.root == old(runtime.root)
      ensures Now(ErrorOf(r)) == old(Spec(OpTransferFrom(owner, operator, recipient, ids)))
      ensures r.Err? ==> state.Value() == old(state.Value())
      ensures r.Ok? ==>
        var o, to := runtime.Table().Resolve(owner), runtime.Table().Resolve(recipient);
        && fresh(r.value) && o.Some? && to.Some?
        && Holds(r.value, recipient, NftReceived(to.value, o.value, ids, operatorData),
                 TransferIntermediate(ids, o.value, to.value, []))
    {
      var actors :- ResolveTransferFrom(owner, operator, recipient, ids);
      var (ownerId, operatorId, recipientId) := actors;
      var _ :- MoveAsOperator(ownerId, operatorId, recipientId, ids);
      var hook := TransferHook(recipient, recipientId, ownerId, ids, operatorData);
      return Ok(hook);
    }

    method TransferHook<D>(recipient: Address, to: ActorID, from: ActorID, ids: seq<TokenID>, operatorData: D)
      returns (hook: ReceiverHook<TransferIntermediate, NftReceived<D>>)
      ensures fresh(hook)
      ensures Holds(hook, recipient, NftReceived(to, from, ids, operatorData),
                    TransferIntermediate(ids, from, to, []))
    {
      var params := NftReceived(to, from, ids, operatorData);
      hook := new ReceiverHook<TransferIntermediate, NftReceived<D>>(
        recipient, params, TransferIntermediate(ids, from, to, []));
    }

    /** `owner` names an actor, and this is its balance. */
    ghost predicate OwnerHas(owner: Address, balance: int)
      reads runtime, state
    {
      && runtime.Table().Resolve(owner).Some?
      && balance == BalanceOf(state.Value().Owners(), runtime.Table().Resolve(owner).value)
    }

    function Balance(owner: Address): (r: int)
      reads runtime, state
      ensures runtime.Table().Resolve(owner).Some? ==> OwnerHas(owner, r)
      ensures runtime.Table().Resolve(owner).None? ==> r == 0
    {
      match runtime.ResolveAddress(owner)
      case Some(id) => state.GetBalance(id)
      case None => 0
    }

    method Flush() returns (cid: NftRoot)
      ensures cid == NftRoot(state.Value())
    {
      return NftRoot(state.Value());
    }

    /** If the state was saved under `expected` before the hook ran, it is now the committed state,
        whatever the hook did to the root. */
    method ReloadIfChanged(expected: NftRoot)
      modifies state
      ensures expected == NftRoot(old(state.Value())) ==> NftRoot(state.Value()) == runtime.root
      ensures runtime.root == expected ==> state.Value() == old(state.Value())
      ensures runtime.root != expected ==> state.Value() == runtime.root.content
    {
      var current := runtime.root;
      if current != expected {
        state.Replace(current.content);
      }
    }

    /** Balance and supply after the hook; the ids are those minted, even if the hook moved or burnt some. */
    method BuildMintReturn(intermediate: MintIntermediate, priorRoot: NftRoot) returns (r: MintReturn)
      modifies state
      ensures priorRoot == NftRoot(old(state.Value())) ==>
        var n := runtime.root.content;
        && state.Value() == n
        && r == MintReturn(BalanceOf(n.Owners(), intermediate.to), n.supply,
                           intermediate.tokenIds, intermediate.recipientData)
    {
      ReloadIfChanged(priorRoot);
      return MintReturn(state.GetBalance(intermediate.to), state.totalSupply,
                        intermediate.tokenIds, intermediate.recipientData);
    }

    /** Both balances after the hook. */
    method BuildTransferReturn(intermediate: TransferIntermediate, priorRoot: NftRoot) returns (r: TransferReturn)
      modifies state
      ensures priorRoot == NftRoot(old(state.Value())) ==>
        var n := runtime.root.content;
        && state.Value() == n
        && r == TransferReturn(BalanceOf(n.Owners(), intermediate.from), BalanceOf(n.Owners(), intermediate.to),
                               intermediate.tokenIds)
    {
      ReloadIfChanged(priorRoot);
      return TransferReturn(state.GetBalance(intermediate.from), state.GetBalance(intermediate.to),
                            intermediate.tokenIds);
    }
  }

  /** Short of an overflow, the ids minted are the next ones in order. */
  lemma NewIdsInOrder(n: Nft, owner: ActorID, metadatas: seq<string>)
    requires n.next + |metadatas| < TWO64
    ensures NewIds(n.next, MintTokens(n, owner, metadatas).next) == seq(|metadatas|, (i: nat) => n.next + i)
  {
    MintAllExactly(n.Tokens(), n.next, owner, metadatas, 0);
  }

  // ---------------------------------------------------------------- runs of library calls

  /** The actors, ids and metadata of a planned call are those the operation names: each actor is the one
      its address resolves to once the operation is over. */
  lemma PlanNamesActors(t: AddressTable, op: Op)
    ensures match Plan(t, op)
            case (t', Ok(Some(c))) => Names(t', op, c)
            case _ => true
  {
  }

  predicate Names(t: AddressTable, op: Op, c: Call) {
    match (op, c)
    case (OpMint(operator, owner, m), Mint(o, m')) =>
      t.Resolve(operator).Some? && t.Resolve(owner) == Some(o) && m' == m
    case (OpBurn(owner, ids), Burn(o, ids')) => t.Resolve(owner) == Some(o) && ids' == ids
    case (OpBurnFrom(owner, operator, ids), BurnFrom(o, p, ids')) =>
      t.Resolve(owner) == Some(o) && t.Resolve(operator) == Some(p) && ids' == ids
    case (OpApprove(owner, operator, ids), Approve(o, p, ids')) =>
      t.Resolve(owner) == Some(o) && t.Resolve(operator) == Some(p) && ids' == ids
    case (OpRevoke(owner, operator, ids), Revoke(o, p, ids')) =>
      t.Resolve(owner) == Some(o) && t.Resolve(operator) == Some(p) && ids' == ids
    case (OpApproveAccount(owner, operator), ApproveAccount(o, p)) =>
      t.Resolve(owner) == Some(o) && t.Resolve(operator) == Some(p)
    case (OpRevokeAccount(owner, operator), RevokeAccount(o, p)) =>
      t.Resolve(owner) == Some(o) && t.Resolve(operator) == Some(p)
    case (OpTransfer(owner, recipient, ids), Transfer(o, r, ids')) =>
      t.Resolve(owner) == Some(o) && t.Resolve(recipient) == Some(r) && ids' == ids
    case (OpTransferFrom(owner, operator, recipient, ids), TransferFrom(o, p, r, ids')) =>
      && t.Resolve(owner) == Some(o) && t.Resolve(operator) == Some(p) && t.Resolve(recipient) == Some(r)
      && ids' == ids
    case _ => false
  }

  /** Exactly when the addresses of an operation resolve, whether there is anything to do, and which
      accounts may be created. */
  lemma PlanExactly(t: AddressTable, op: Op)
    requires t.Consistent()
    ensures var (t', plan) := Plan(t, op);
            match op
            case OpMint(operator, owner, _) =>
              OnlyOpens(t, t', {owner}) && Calls(plan, t.Resolve(operator).Some? && t.Reaches(owner))
            case OpBurn(owner, _) => t' == t && Calls(plan, t.Resolve(owner).Some?)
            case OpBurnFrom(owner, operator, _) =>
              OnlyOpens(t, t', {owner}) && Calls(plan, t.Resolve(operator).Some? && t.Reaches(owner))
            case OpApprove(owner, operator, _) =>
              OnlyOpens(t, t', {operator}) && Calls(plan, t.Resolve(owner).Some? && t.Reaches(operator))
            case OpRevoke(owner, operator, _) =>
              && t' == t && (plan.Ok? <==> t.Resolve(owner).Some?)
              && (plan.Ok? ==> (plan.value.Some? <==> t.Resolve(operator).Some?))
            case OpApproveAccount(owner, operator) =>
              OnlyOpens(t, t', {operator}) && Calls(plan, t.Resolve(owner).Some? && t.Reaches(operator))
            case OpRevokeAccount(owner, operator) =>
              && t' == t && (plan.Ok? <==> t.Resolve(owner).Some?)
              && (plan.Ok? ==> (plan.value.Some? <==> t.Resolve(operator).Some?))
            case OpTransfer(owner, recipient, _) =>
              OnlyOpens(t, t', {owner, recipient}) && Calls(plan, t.Reaches(owner) && t.Reaches(recipient))
            case OpTransferFrom(owner, operator, recipient, _) =>
              && OnlyOpens(t, t', {recipient})
              && Calls(plan, t.Resolve(owner).Some? && t.Resolve(operator).Some? && t.Reaches(recipient))
  {
    match op
    case OpMint(_, a, _) => InitExactly(t, a);
    case OpBurnFrom(a, _, _) => InitExactly(t, a);
    case OpApprove(_, a, _) => InitExactly(t, a);
    case OpApproveAccount(_, a) => InitExactly(t, a);
    case OpTransfer(a, b, _) => InitTwiceExactly(t, a, b);
    case OpTransferFrom(_, _, a, _) => InitExactly(t, a);
    case _ =>
  }

  /** There is a call to make exactly if `condition` holds; otherwise resolution failed. */
  predicate Calls(plan: Result<Option<Call>, LibraryError>, condition: bool) {
    (plan.Ok? <==> condition) && (plan.Ok? ==> plan.value.Some?)
  }

  /** An operation succeeds exactly if resolution did and the call it makes, if any, does; the ledger is
      then that after the call, and otherwise as it was. */
  lemma LibraryStepExactly(t: AddressTable, n: Nft, op: Op)
    ensures var (t', n', error) := LibraryStep(t, n, op);
            && t' == Plan(t, op).0
            && (error.None? <==> Plan(t, op).1.Ok? && forall c | c in CallOf(t, op) :: Step(n, c).Ok?)
            && (forall c | c in CallOf(t, op) :: n' == After(n, c))
            && (CallOf(t, op) == [] ==> n' == n)
            && (error.Some? ==> n' == n)
            && (forall c | c in CallOf(t, op) && Step(n, c).Err? :: error == Some(State(Step(n, c).error)))
  {
    match Plan(t, op).1
    case Ok(Some(c)) => assert c in CallOf(t, op);
    case _ =>
  }

  /** The call that an operation makes, if its addresses resolve and there is anything to do. */
  function CallOf(t: AddressTable, op: Op): seq<Call> {
    match Plan(t, op).1
    case Ok(Some(c)) => [c]
    case _ => []
  }

  /** Operations one after the other: table and ledger at the end, and the calls they made. */
  function RunOps(t: AddressTable, n: Nft, ops: seq<Op>): (AddressTable, Nft, seq<Call>)
    decreases |ops|
  {
    if ops == [] then (t, n, [])
    else
      var (t1, n1, _) := LibraryStep(t, n, ops[0]);
      var (t2, n2, calls) := RunOps(t1, n1, ops[1..]);
      (t2, n2, CallOf(t, ops[0]) + calls)
  }

  lemma {:induction false} RunOpsContinues(t: AddressTable, prior: seq<Call>, ops: seq<Op>)
    ensures var (_, n, calls) := RunOps(t, Exec(prior), ops); n == Exec(prior + calls)
    decreases |ops|
  {
    if ops == [] {
      assert prior + [] == prior;
    } else {
      var t1, first := LibraryStep(t, Exec(prior), ops[0]).0, CallOf(t, ops[0]);
      StepContinues(t, prior, ops[0]);
      RunOpsContinues(t1, prior + first, ops[1..]);
      JoinCalls(prior, first, RunOps(t1, Exec(prior + first), ops[1..]).2);
    }
  }

  lemma JoinCalls(a: seq<Call>, b: seq<Call>, c: seq<Call>)
    ensures (a + b) + c == a + (b + c)
  {
  }

  lemma StepContinues(t: AddressTable, prior: seq<Call>, op: Op)
    ensures LibraryStep(t, Exec(prior), op).1 == Exec(prior + CallOf(t, op))
  {
    match Plan(t, op).1
    case Ok(Some(c)) => ExecSnoc(prior, c);
    case _ => assert prior + [] == prior;
  }

  /** An operation between addresses, whatever its outcome, keeps the index in agreement if and only if
      it does not make an unsafe call. */
  lemma LibraryStepAgreesExactly(t: AddressTable, n: Nft, op: Op)
    requires Agrees(n)
    ensures Agrees(LibraryStep(t, n, op).1) <==> forall c | c in CallOf(t, op) :: Safe(n, c)
  {
    match Plan(t, op).1
    case Ok(Some(c)) =>
      assert c in CallOf(t, op);
      if Step(n, c).Ok? {
        StepAgreesExactly(n, c);
      }
    case _ =>
  }

  /** Any sequence of library operations between addresses, whichever of them fail, is a run of the calls
      it makes, to which everything said of runs applies: the index agrees all along if and only if no
      mint in it is unsafe, and the operators of a token are those its owner approved. */
  lemma LibraryRun(t: AddressTable, ops: seq<Op>, id: TokenID, p: ActorID)
    ensures var (_, n, calls) := RunOps(t, EMPTY_NFT, ops);
            && n == Exec(calls)
            && (AlwaysAgrees(calls) <==> AllSafe(calls))
            && (AllSafe(calls) ==> Agrees(n) && n.supply == Minted(calls) - Burnt(calls))
            && (id in n.Tokens() ==>
                  Approver(calls, id, p) == if p in n.Tokens()[id].operators then Some(n.Tokens()[id].owner) else None)
  {
    var (_, n, calls) := RunOps(t, EMPTY_NFT, ops);
    RunOpsContinues(t, [], ops);
    assert [] + calls == calls;
    RunAgreesExactly(calls);
    if AllSafe(calls) {
      SupplyExactly(calls);
    }
    if id in n.Tokens() {
      OperatorsAreApproved(calls, id, p);
    }
  }
}
