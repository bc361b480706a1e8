/**
 The token actor's code: each message loads the actor from the committed root, changes the copy in
 memory, saves it and sets the root; mint and transfer then call the recipient, which may re-enter
 the actor, and reload the copy if the root has moved.  The machine's part is to run scripts and to
 put the committed state back when a message aborts.

 Every method is proved to do to the world what Reentrancy says, whatever the hooks do.
 */
module FactoryTokens {
  import opened Basics
  import opened Addresses
  import opened Ledgers
  import opened TokenStates
  import opened ReceiverHooks
  import opened Tokens
  import opened Reentrancy

  datatype RuntimeError =
    | FromToken(token: TokenError)
    | FromHook(hook: HookError)
    | AddressNotAuthorized
    | MintingDisabled
    | UnknownMethod

  function FromLibrary<T>(r: Result<T, TokenError>): Result<T, RuntimeError> {
    match r
    case Ok(v) => Ok(v)
    case Err(e) => Err(FromToken(e))
  }

  type Machine = Syscalls<Root>

  function WorldOf(vm: Machine): World
    reads vm
  {
    World(vm.root, vm.Table())
  }

  class FactoryToken {
    const vm: Machine
    const caller: ActorID
    var token: TokenState
    var granularity: Granularity
    var minter: Option<ActorID>

    constructor Load(vm: Machine, caller: ActorID, root: Root)
      ensures this.vm == vm && this.caller == caller && fresh(token) && Encode() == root.content
    {
      var state := root.content;
      this.vm, this.caller := vm, caller;
      token := new TokenState.Load(state.token);
      granularity, minter := state.granularity, state.minter;
    }

    function Encode(): FactoryState
      reads this, token
    {
      FactoryState(token.Value(), granularity, minter)
    }

    /** The copy in memory is what the committed root links to. */
    ghost predicate Coherent()
      reads this, token, vm
    {
      Root(Encode()) == vm.root
    }

    ghost predicate Ready(env: Env)
      reads this, token, vm
    {
      env.token == vm.actorId && WorldOk(WorldOf(vm)) && Coherent()
    }

    /** A finished method did what `spec` says: on success the world and the reply are those of
        `spec` and the copy in memory is the committed state; `written0` are the earlier roots. */
    ghost predicate Did(r: Result<Reply, RuntimeError>, spec: Trace<Reply>, written0: seq<Root>)
      reads this, token, vm
    {
      && (r.Ok? <==> !spec.out.Aborted?)
      && (r.Ok? ==> r.value == spec.out && WorldOf(vm) == spec.world && Coherent())
      && vm.written == written0 + spec.roots
    }

    /** The ledger that the root links to, and the balance in it of the actor at `a`. */
    function Committed(): Ledger
      reads vm
    {
      vm.root.content.token
    }

    function CommittedAt(a: Address): int
      reads vm
    {
      match vm.Table().Resolve(a)
      case Some(id) => vm.root.content.token.Bal(id)
      case None => 0
    }

    /** The allowance of the caller in it from the actor at `owner`. */
    function CommittedGrant(owner: Address): int
      reads vm
    {
      match vm.Table().Resolve(owner)
      case Some(id) => vm.root.content.token.Allow(id, caller)
      case None => 0
    }

    function CallerAddress(): Address {
      ID(caller)
    }

    method Save() returns (cid: Root)
      ensures cid == Root(Encode())
    {
      return Root(Encode());
    }

    /** Replaces the copy in memory if the root is no longer `initial`. */
    method Reload(initial: Root)
      modifies this
      ensures vm.root == initial ==> token == old(token) && Encode() == old(Encode())
      ensures vm.root != initial ==> fresh(token) && Encode() == vm.root.content
    {
      var newCid := vm.root;
      if newCid != initial {
        var state := newCid.content;
        token := new TokenState.Load(state.token);
        granularity, minter := state.granularity, state.minter;
      }
    }

    method WrapToken() returns (t: Token<Root>)
      ensures fresh(t) && t.runtime == vm && t.state == token && t.granularity == granularity
    {
      t := new Token<Root>.Wrap(vm, granularity, token);
    }

    /** Saves, sets the root, calls the hook, and reloads if the root has moved.  The token library
        has just done `op`, from the world `w0`, to the copy in memory. */
    method FlushAndCall<T>(env: Env, hook: ReceiverHook<T, TokenReceived<Script>>,
                           ghost w0: World, ghost op: Op, ghost data: Script)
      returns (r: Result<T, RuntimeError>)
      requires env.token == vm.actorId && WorldOk(w0) && Commit(w0, caller, op).out
      requires !op.OpSetBalance? && (op.OpMint? ==> w0.root.content.minter.Some?)
      requires vm.root == w0.root && World(Root(Encode()), vm.Table()) == After(w0, op)
      requires hook.Valid() && !hook.called && hook.params.value.operatorData == data
      modifies this, vm, hook
      ensures var spec := CommitAndNotify(env, w0, caller, op, hook.address, data);
              && (r.Ok? <==> spec.out)
              && (r.Ok? ==> WorldOf(vm) == spec.world && Coherent() && r.value == old(hook.result).value)
              && vm.written == old(vm.written) + spec.roots
      ensures token == old(token) || fresh(token)
      decreases data, 4
    {
      ghost var c := Commit(w0, caller, op);
      CommitKeepsOk(w0, caller, op);
      NotifyIs(env, w0, caller, op, hook.address, data);
      var cid := Save();
      vm.SetRoot(cid);
      assert WorldOf(vm) == c.world && c.roots == [cid];
      var called := CallHook(vm, env, hook, data);
      AppendAssociates();
      hook.Drop();
      if called.Err? {
        return Err(FromHook(called.error));
      }
      Reload(cid);
      return Ok(called.value);
    }

    method Transfer(env: Env, to: Address, amount: int, data: Script) returns (r: Result<Reply, RuntimeError>)
      requires Ready(env)
      modifies this, token, vm
      ensures Did(r, Invoke(env, old(WorldOf(vm)), caller, TransferMsg(to, amount, data)), old(vm.written))
      ensures r.Ok? ==> r.value == Moved(Committed().Bal(caller), CommittedAt(to))
      ensures token == old(token) || fresh(token)
      decreases data, 5
    {
      ghost var w0, op := WorldOf(vm), OpTransfer(CallerAddress(), to, amount);
      var t := WrapToken();
      var hookResult := t.Transfer(CallerAddress(), to, amount, data);
      var hook :- FromLibrary(hookResult);
      var done :- FlushAndCall(env, hook, w0, op, data);
      t := WrapToken();
      return Ok(Moved(t.BalanceOf(done.from), t.BalanceOf(done.to)));
    }

    method TransferFrom(env: Env, from: Address, to: Address, amount: int, data: Script)
      returns (r: Result<Reply, RuntimeError>)
      requires Ready(env)
      modifies this, token, vm
      ensures Did(r, Invoke(env, old(WorldOf(vm)), caller, TransferFromMsg(from, to, amount, data)), old(vm.written))
      ensures r.Ok? ==> r.value == MovedFrom(CommittedAt(from), CommittedAt(to), CommittedGrant(from))
      ensures token == old(token) || fresh(token)
      decreases data, 5
    {
      ghost var w0, op := WorldOf(vm), OpTransferFrom(CallerAddress(), from, to, amount);
      var t := WrapToken();
      var hookResult := t.TransferFrom(CallerAddress(), from, to, amount, data);
      var hook :- FromLibrary(hookResult);
      var done :- FlushAndCall(env, hook, w0, op, data);
      t := WrapToken();
      var ret := done;
      return Ok(MovedFrom(t.BalanceOf(ret.from), t.BalanceOf(ret.to), t.Allowance(ret.from, ret.operator)));
    }

    method Mint(env: Env, initialOwner: Address, amount: int, data: Script) returns (r: Result<Reply, RuntimeError>)
      requires Ready(env)
      modifies this, token, vm
      ensures Did(r, Invoke(env, old(WorldOf(vm)), caller, MintMsg(initialOwner, amount, data)), old(vm.written))
      ensures r.Ok? ==> r.value == Minted(CommittedAt(initialOwner), Committed().supply)
      ensures token == old(token) || fresh(token)
      decreases data, 5
    {
      if minter.None? {
        return Err(MintingDisabled);
      }
      if caller != minter.value {
        return Err(AddressNotAuthorized);
      }
      ghost var w0, op := WorldOf(vm), OpMint(CallerAddress(), initialOwner, amount);
      var t := WrapToken();
      var hookResult := t.Mint(CallerAddress(), initialOwner, amount, data);
      var hook :- FromLibrary(hookResult);
      var done :- FlushAndCall(env, hook, w0, op, data);
      t := WrapToken();
      return Ok(Minted(t.BalanceOf(done.recipient), token.supply));
    }

    /** Only the copy in memory changes; the caller saves it. */
    method DisableMint() returns (r: Result<(), RuntimeError>)
      modifies this
      ensures r.Ok? <==> old(minter) == Some(caller)
      ensures r.Ok? ==> token == old(token) && Encode() == old(Encode()).(minter := None)
    {
      if minter.None? {
        return Err(MintingDisabled);
      }
      if caller != minter.value {
        return Err(AddressNotAuthorized);
      }
      minter := None;
      return Ok(());
    }

    /** Saves the copy in memory and makes it the root. */
    method Flush()
      modifies vm
      ensures vm.root == Root(Encode()) && vm.Table() == old(vm.Table())
      ensures vm.written == old(vm.written) + [vm.root]
    {
      var cid := Save();
      vm.SetRoot(cid);
    }

    /** An operation without a hook has been done to the copy in memory and nothing is saved yet. */
    ghost predicate ChangedCopy(r: Result<Reply, RuntimeError>, w0: World, op: Op, written0: seq<Root>)
      reads this, token, vm
    {
      && vm.root == w0.root && vm.written == written0
      && (r.Ok? <==> !Fails(w0, op))
      && (r.Ok? ==> World(Root(Encode()), vm.Table()) == After(w0, op))
    }

    method Burn(ghost env: Env, amount: int) returns (r: Result<Reply, RuntimeError>)
      requires Ready(env)
      modifies token, vm
      ensures ChangedCopy(r, old(WorldOf(vm)), OpBurn(CallerAddress(), amount), old(vm.written))
      ensures r.Ok? ==> r.value == Amount(BalanceAt(vm.Table(), token.Value(), CallerAddress()))
    {
      var t := WrapToken();
      var burnt := t.Burn(CallerAddress(), amount);
      match burnt {
        case Err(e) => r := Err(FromToken(e));
        case Ok(balance) => r := Ok(Amount(balance));
      }
    }

    method IncreaseAllowance(ghost env: Env, operator: Address, delta: int) returns (r: Result<Reply, RuntimeError>)
      requires Ready(env)
      modifies token, vm
      ensures ChangedCopy(r, old(WorldOf(vm)), OpIncrease(CallerAddress(), operator, delta), old(vm.written))
      ensures r.Ok? ==> r.value == Amount(AllowanceAt(vm.Table(), token.Value(), CallerAddress(), operator))
    {
      var t := WrapToken();
      var changed := t.IncreaseAllowance(CallerAddress(), operator, delta);
      match changed {
        case Err(e) => r := Err(FromToken(e));
        case Ok(allowance) => r := Ok(Amount(allowance));
      }
    }

    method DecreaseAllowance(ghost env: Env, operator: Address, delta: int) returns (r: Result<Reply, RuntimeError>)
      requires Ready(env)
      modifies token, vm
      ensures ChangedCopy(r, old(WorldOf(vm)), OpDecrease(CallerAddress(), operator, delta), old(vm.written))
      ensures r.Ok? ==> r.value == Amount(AllowanceAt(vm.Table(), token.Value(), CallerAddress(), operator))
    {
      var t := WrapToken();
      var changed := t.DecreaseAllowance(CallerAddress(), operator, delta);
      match changed {
        case Err(e) => r := Err(FromToken(e));
        case Ok(allowance) => r := Ok(Amount(allowance));
      }
    }

    method RevokeAllowance(ghost env: Env, operator: Address) returns (r: Result<Reply, RuntimeError>)
      requires Ready(env)
      modifies token, vm
      ensures ChangedCopy(r, old(WorldOf(vm)), OpRevoke(CallerAddress(), operator), old(vm.written))
      ensures r.Ok? ==> r.value == Done
    {
      var t := WrapToken();
      var revoked := t.RevokeAllowance(CallerAddress(), operator);
      match revoked {
        case Err(e) => r := Err(FromToken(e));
        case Ok(_) => r := Ok(Done);
      }
    }

    /** Runs one message on the loaded actor. */
    method Dispatch(env: Env, m: Message) returns (r: Result<Reply, RuntimeError>)
      requires Ready(env)
      modifies this, token, vm
      ensures Did(r, Invoke(env, old(WorldOf(vm)), caller, m), old(vm.written))
      decreases m, 6
    {
      match m {
        case TransferMsg(to, amount, data) => r := Transfer(env, to, amount, data);
        case TransferFromMsg(from, to, amount, data) => r := TransferFrom(env, from, to, amount, data);
        case MintMsg(to, amount, data) => r := Mint(env, to, amount, data);
        case BurnMsg(amount) =>
          r := Burn(env, amount);
          if r.Ok? { Flush(); }
        case IncreaseMsg(operator, delta) =>
          r := IncreaseAllowance(env, operator, delta);
          if r.Ok? { Flush(); }
        case DecreaseMsg(operator, delta) =>
          r := DecreaseAllowance(env, operator, delta);
          if r.Ok? { Flush(); }
        case RevokeMsg(operator) =>
          r := RevokeAllowance(env, operator);
          if r.Ok? { Flush(); }
        case BalanceOfMsg(owner) =>
          var t := WrapToken();
          r := Ok(Amount(t.BalanceOf(owner)));
        case AllowanceMsg(owner, operator) =>
          var t := WrapToken();
          r := Ok(Amount(t.Allowance(owner, operator)));
        case TotalSupplyMsg => r := Ok(Amount(token.supply));
        case DisableMintMsg =>
          var disabled := DisableMint();
          if disabled.Ok? {
            Flush();
            r := Ok(Done);
          } else {
            r := Err(disabled.error);
          }
        case BurnFromMsg(_, _) => r := Err(UnknownMethod);
        case UnknownMsg => r := Err(UnknownMethod);
      }
    }
  }

  lemma NotifyIs(env: Env, w: World, caller: ActorID, op: Op, to: Address, data: Script)
    requires Commit(w, caller, op).out
    ensures var c := Commit(w, caller, op);
            var r := Receive(env, c.world, to, data);
            CommitAndNotify(env, w, caller, op, to, data)
            == if r.out then Then(c, r) else Trace(w, false, [], c.roots + r.roots)
  {
  }

  lemma RunAllIs(env: Env, w: World, calls: seq<External>, i: nat)
    requires i < |calls|
    ensures var first := Deliver(env, w, calls[i]);
            RunAll(env, w, calls[i..]) == Then(first, RunAll(env, first.world, calls[i + 1..]))
  {
    assert calls[i..][1..] == calls[i + 1..];
  }

  lemma CommitKeepsOk(w: World, caller: ActorID, op: Op)
    requires WorldOk(w) && !op.OpSetBalance? && (op.OpMint? ==> w.root.content.minter.Some?)
    ensures WorldOk(Commit(w, caller, op).world)
  {
    CommitIsSound(w, caller, op);
  }

  lemma InvokeKeepsOk(env: Env, w: World, caller: ActorID, m: Message)
    requires WorldOk(w)
    ensures WorldOk(Invoke(env, w, caller, m).world)
  {
    InvokeIsSound(env, w, caller, m);
  }

  lemma CallActorKeepsOk(env: Env, w: World, actor: ActorID, body: Script)
    requires WorldOk(w)
    ensures WorldOk(CallActor(env, w, actor, body).world)
  {
    CallActorIsSound(env, w, actor, body);
  }

  // ---------------------------------------------------------------- the machine

  /** Runs `s` as the code of actor `self`. */
  method RunScript(vm: Machine, env: Env, self: ActorID, s: Script) returns (ok: bool)
    requires env.token == vm.actorId && WorldOk(WorldOf(vm))
    modifies vm
    ensures var spec := Run(env, old(WorldOf(vm)), self, s);
            WorldOf(vm) == spec.world && ok == spec.out && vm.written == old(vm.written) + spec.roots
    decreases s, 0
  {
    match s {
      case Exit => ok := true;
      case Abort => ok := false;
      case Send(m, whenOk, whenFailed) =>
        InvokeKeepsOk(env, WorldOf(vm), self, m);
        var reply := SendMessage(vm, env, self, m);
        ok := RunScript(vm, env, self, if reply.Aborted? then whenFailed else whenOk);
        AppendAssociates();
      case Call(actor, body, whenOk, whenFailed) =>
        CallActorKeepsOk(env, WorldOf(vm), actor, body);
        var called := SendScript(vm, env, actor, body);
        ok := RunScript(vm, env, self, if called then whenOk else whenFailed);
        AppendAssociates();
    }
  }

  lemma AppendAssociates()
    ensures forall a: seq<Root>, b: seq<Root>, c: seq<Root> :: (a + b) + c == a + (b + c)
  {
  }

  /** A message to a scripted actor. */
  method SendScript(vm: Machine, env: Env, actor: ActorID, body: Script) returns (ok: bool)
    requires env.token == vm.actorId && WorldOk(WorldOf(vm))
    modifies vm
    ensures var spec := CallActor(env, old(WorldOf(vm)), actor, body);
            WorldOf(vm) == spec.world && ok == spec.out && vm.written == old(vm.written) + spec.roots
    decreases body, 1
  {
    if actor !in env.scripted {
      return false;
    }
    var root, table := vm.root, vm.Table();
    ok := RunScript(vm, env, actor, body);
    if !ok {
      vm.Restore(root, table);
    }
  }

  /** The message that a receiver hook sends. */
  method SendReceive(vm: Machine, env: Env, to: Address, data: Script) returns (accepted: bool)
    requires env.token == vm.actorId && WorldOk(WorldOf(vm))
    modifies vm
    ensures var spec := Receive(env, old(WorldOf(vm)), to, data);
            WorldOf(vm) == spec.world && accepted == spec.out && vm.written == old(vm.written) + spec.roots
    decreases data, 2
  {
    match vm.ResolveAddress(to) {
      case None => accepted := false;
      case Some(id) =>
        if id == env.token || id in env.rejecting {
          accepted := false;
        } else if id in env.scripted {
          accepted := SendScript(vm, env, id, data);
        } else {
          accepted := true;
        }
    }
  }

  /** Calls a receiver hook; a second call of the same hook is refused without sending. */
  method CallHook<T>(vm: Machine, env: Env, hook: ReceiverHook<T, TokenReceived<Script>>, ghost data: Script)
    returns (r: Result<T, HookError>)
    requires env.token == vm.actorId && WorldOk(WorldOf(vm))
    requires hook.Valid() && (!hook.called ==> hook.params.value.operatorData == data)
    modifies vm, hook
    ensures hook.called
    ensures old(hook.called) ==>
      r == Err(AlreadyCalled) && WorldOf(vm) == old(WorldOf(vm)) && vm.written == old(vm.written)
    ensures !old(hook.called) ==>
      var spec := Receive(env, old(WorldOf(vm)), hook.address, data);
      && WorldOf(vm) == spec.world && vm.written == old(vm.written) + spec.roots
      && r == (if spec.out then Ok(old(hook.result).value) else Err(Receiver(hook.address)))
    decreases data, 3
  {
    var begun :- hook.Begin();
    var accepted := SendReceive(vm, env, hook.address, begun.operatorData);
    r := hook.Finish(accepted);
  }

  method SendMessage(vm: Machine, env: Env, caller: ActorID, m: Message) returns (reply: Reply)
    requires env.token == vm.actorId && WorldOk(WorldOf(vm))
    modifies vm
    ensures var spec := Invoke(env, old(WorldOf(vm)), caller, m);
            WorldOf(vm) == spec.world && reply == spec.out && vm.written == old(vm.written) + spec.roots
    decreases m, 7
  {
    var root, table := vm.root, vm.Table();
    var actor := new FactoryToken.Load(vm, caller, root);
    var r := actor.Dispatch(env, m);
    match r {
      case Ok(value) =>
        reply := value;
      case Err(_) =>
        reply := Aborted;
        AbortedChangesNothing(env, old(WorldOf(vm)), caller, m);
        vm.Restore(root, table);
    }
  }

  /** One message from outside. */
  method Execute(vm: Machine, env: Env, x: External) returns (ok: bool)
    requires env.token == vm.actorId && WorldOk(WorldOf(vm))
    modifies vm
    ensures var spec := Deliver(env, old(WorldOf(vm)), x);
            WorldOf(vm) == spec.world && ok == spec.out && vm.written == old(vm.written) + spec.roots
  {
    match x {
      case ToToken(caller, msg) =>
        var reply := SendMessage(vm, env, caller, msg);
        ok := !reply.Aborted?;
      case ToActor(actor, body) => ok := SendScript(vm, env, actor, body);
    }
  }

  /** Any messages from outside: the code takes the world where RunAll says, and every state it made the
      root on the way was valid. */
  method SendAll(vm: Machine, env: Env, calls: seq<External>)
    requires env.token == vm.actorId && WorldOk(WorldOf(vm))
    modifies vm
    ensures var spec := RunAll(env, old(WorldOf(vm)), calls);
            WorldOf(vm) == spec.world && vm.written == old(vm.written) + spec.roots
    ensures WorldOk(WorldOf(vm))
    ensures forall i | |old(vm.written)| <= i < |vm.written| :: StateOk(vm.written[i].content)
  {
    RunAllIsSound(env, WorldOf(vm), calls);
    ghost var spec, written0 := RunAll(env, WorldOf(vm), calls), vm.written;
    for i := 0 to |calls|
      invariant WorldOk(WorldOf(vm))
      invariant RunAll(env, WorldOf(vm), calls[i..]).world == spec.world
      invariant vm.written + RunAll(env, WorldOf(vm), calls[i..]).roots == written0 + spec.roots
    {
      DeliverIsSound(env, WorldOf(vm), calls[i]);
      RunAllIs(env, WorldOf(vm), calls, i);
      var _ := Execute(vm, env, calls[i]);
      AppendAssociates();
    }
  }

  /** The constructor of the token actor. */
  method Construct(vm: Machine, granularity: Granularity, minter: Address) returns (r: Result<(), MessagingError>)
    modifies vm
    ensures r.Ok? <==> old(vm.Table()).Resolve(minter).Some?
    ensures r.Ok? ==>
      vm.root == Root(Constructed(granularity, old(vm.Table()).Resolve(minter).value)) && StateOk(vm.root.content)
    ensures r.Ok? ==> forall x: ActorID :: MayMint(WorldOf(vm), x) <==> old(vm.Table()).Resolve(minter) == Some(x)
    ensures r.Ok? ==> vm.root.content.granularity == granularity && vm.root.content.token.supply == 0
    ensures r.Ok? ==> forall a :: vm.root.content.token.Bal(a) == 0
    ensures r.Err? ==> r.error == AddressNotResolved(minter) && vm.root == old(vm.root)
    ensures vm.Table() == old(vm.Table())
  {
    var id := vm.ResolveAddress(minter);
    if id.None? {
      return Err(AddressNotResolved(minter));
    }
    var token := new FactoryToken.Load(vm, id.value, Root(Constructed(granularity, id.value)));
    var cid := token.Save();
    vm.SetRoot(cid);
    return Ok(());
  }
}
