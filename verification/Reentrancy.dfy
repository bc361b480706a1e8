/**
 Whole runs of the token actor among other actors, as values.

 A `Script` is everything an actor does while it has control: it sends messages to the token actor,
 calls other actors, and ends by returning or aborting.  The operator data of a transfer or mint
 carries the script its recipient runs in the receiver hook, so scripts nest to any depth.  Since a
 script may send any message whatever and branch on success, the scripts cover every behaviour an
 actor can show in a run that ends.

 The functions below say what a run does to the world.  They know nothing of in-memory copies,
 saving and reloading: that this is what the code computes is proved in FactoryToken.
 */
module Reentrancy {
  import opened Basics
  import opened Addresses
  import opened Ledgers
  import opened Tokens

  type Granularity = g: nat | g >= 1 witness 1

  /** The state block the actor's root links to. */
  datatype FactoryState = FactoryState(token: Ledger, granularity: Granularity, minter: Option<ActorID>)

  /** The CID of such a block. */
  datatype Root = Root(content: FactoryState)

  /** What a message can change, and what is put back when it aborts. */
  datatype World = World(root: Root, table: AddressTable)

  /** Who runs scripts and who refuses every hook; all other actors accept hooks and do nothing. */
  datatype Env = Env(token: ActorID, scripted: set<ActorID>, rejecting: set<ActorID>)

  datatype Script =
    | Exit
    | Abort
    | Send(msg: Message, whenOk: Script, whenFailed: Script)
    | Call(actor: ActorID, body: Script, whenOk: Script, whenFailed: Script)

  /** A message to the token actor. */
  datatype Message =
    | TransferMsg(to: Address, amount: int, data: Script)
    | TransferFromMsg(from: Address, to: Address, amount: int, data: Script)
    | MintMsg(to: Address, amount: int, data: Script)
    | BurnMsg(amount: int)
    | BurnFromMsg(owner: Address, amount: int)
    | IncreaseMsg(operator: Address, delta: int)
    | DecreaseMsg(operator: Address, delta: int)
    | RevokeMsg(operator: Address)
    | BalanceOfMsg(owner: Address)
    | AllowanceMsg(owner: Address, operator: Address)
    | TotalSupplyMsg
    | DisableMintMsg
    | UnknownMsg

  datatype Reply =
    | Aborted
    | Done
    | Amount(amount: int)
    | Moved(fromBalance: int, toBalance: int)
    | MovedFrom(fromBalance: int, toBalance: int, allowance: int)
    | Minted(balance: int, supply: int)

  /** A change of the committed state, and the sender of the message that made it. */
  datatype ActorEffect = OnLedger(sender: ActorID, effect: Effect) | MintDisabled(sender: ActorID)

  /** The world afterwards, the outcome, the effects that survive, and every root that was set on the
      way, including those rolled back later. */
  datatype Trace<T> = Trace(world: World, out: T, effects: seq<ActorEffect>, roots: seq<Root>)

  function Then<T, U>(first: Trace<T>, second: Trace<U>): Trace<U> {
    Trace(second.world, second.out, first.effects + second.effects, first.roots + second.roots)
  }

  function Nothing<T>(w: World, out: T): Trace<T> {
    Trace(w, out, [], [])
  }

  // ---------------------------------------------------------------- scripts

  function Run(env: Env, w: World, self: ActorID, s: Script): Trace<bool>
    decreases s, 0
  {
    match s
    case Exit => Nothing(w, true)
    case Abort => Nothing(w, false)
    case Send(m, whenOk, whenFailed) =>
      var r := Invoke(env, w, self, m);
      Then(r, Run(env, r.world, self, if r.out.Aborted? then whenFailed else whenOk))
    case Call(actor, body, whenOk, whenFailed) =>
      var r := CallActor(env, w, actor, body);
      Then(r, Run(env, r.world, self, if r.out then whenOk else whenFailed))
  }

  function CallActor(env: Env, w: World, actor: ActorID, body: Script): Trace<bool>
    decreases body, 1
  {
    if actor !in env.scripted then Nothing(w, false)
    else
      var r := Run(env, w, actor, body);
      if r.out then r else Trace(w, false, [], r.roots)
  }

  /** The receiver hook of the actor at `to`. */
  function Receive(env: Env, w: World, to: Address, data: Script): Trace<bool>
    decreases data, 2
  {
    match w.table.Resolve(to)
    case None => Nothing(w, false)
    case Some(id) =>
      if id == env.token || id in env.rejecting then Nothing(w, false)
      else if id in env.scripted then CallActor(env, w, id, data)
      else Nothing(w, true)
  }

  // ---------------------------------------------------------------- messages to the token actor

  function EffectsOf(w: World, caller: ActorID, op: Op): seq<ActorEffect> {
    match Plan(w.table, w.root.content.granularity, op).1
    case Ok(Some(effect)) => [OnLedger(caller, effect)]
    case _ => []
  }

  function After(w: World, op: Op): World {
    var (t, l, _) := TokenStep(w.table, w.root.content.granularity, w.root.content.token, op);
    World(Root(w.root.content.(token := l)), t)
  }

  predicate Fails(w: World, op: Op) {
    TokenStep(w.table, w.root.content.granularity, w.root.content.token, op).2.Some?
  }

  /** An operation without a hook: it is committed if it succeeds. */
  function Commit(w: World, caller: ActorID, op: Op): Trace<bool> {
    if Fails(w, op) then Nothing(w, false)
    else Trace(After(w, op), true, EffectsOf(w, caller, op), [After(w, op).root])
  }

  /** An operation with a hook: it is committed, then the recipient is told; a refusal undoes it all. */
  function CommitAndNotify(env: Env, w: World, caller: ActorID, op: Op, to: Address, data: Script): Trace<bool>
    decreases data, 3
  {
    var c := Commit(w, caller, op);
    if !c.out then c
    else
      var r := Then(c, Receive(env, c.world, to, data));
      if r.out then r else Trace(w, false, [], r.roots)
  }

  function Replied(r: Trace<bool>, reply: Reply): Trace<Reply> {
    Trace(r.world, if r.out then reply else Aborted, r.effects, r.roots)
  }

  function BalanceIn(w: World, a: Address): int {
    BalanceAt(w.table, w.root.content.token, a)
  }

  function AllowanceInWorld(w: World, owner: Address, operator: Address): int {
    AllowanceAt(w.table, w.root.content.token, owner, operator)
  }

  predicate MayMint(w: World, caller: ActorID) {
    w.root.content.minter == Some(caller)
  }

  function Invoke(env: Env, w: World, caller: ActorID, m: Message): Trace<Reply>
    decreases m, 4
  {
    var me := ID(caller);
    match m
    case TransferMsg(to, amount, data) =>
      var r := CommitAndNotify(env, w, caller, OpTransfer(me, to, amount), to, data);
      Replied(r, Moved(BalanceIn(r.world, me), BalanceIn(r.world, to)))
    case TransferFromMsg(from, to, amount, data) =>
      var r := CommitAndNotify(env, w, caller, OpTransferFrom(me, from, to, amount), to, data);
      Replied(r, MovedFrom(BalanceIn(r.world, from), BalanceIn(r.world, to), AllowanceInWorld(r.world, from, me)))
    case MintMsg(to, amount, data) =>
      if !MayMint(w, caller) then Nothing(w, Aborted)
      else
        var r := CommitAndNotify(env, w, caller, OpMint(me, to, amount), to, data);
        Replied(r, Minted(BalanceIn(r.world, to), r.world.root.content.token.supply))
    case BurnMsg(amount) =>
      var r := Commit(w, caller, OpBurn(me, amount));
      Replied(r, Amount(BalanceIn(r.world, me)))
    case IncreaseMsg(operator, delta) =>
      var r := Commit(w, caller, OpIncrease(me, operator, delta));
      Replied(r, Amount(AllowanceInWorld(r.world, me, operator)))
    case DecreaseMsg(operator, delta) =>
      var r := Commit(w, caller, OpDecrease(me, operator, delta));
      Replied(r, Amount(AllowanceInWorld(r.world, me, operator)))
    case RevokeMsg(operator) =>
      Replied(Commit(w, caller, OpRevoke(me, operator)), Done)
    case BalanceOfMsg(owner) => Nothing(w, Amount(BalanceIn(w, owner)))
    case AllowanceMsg(owner, operator) => Nothing(w, Amount(AllowanceInWorld(w, owner, operator)))
    case TotalSupplyMsg => Nothing(w, Amount(w.root.content.token.supply))
    case DisableMintMsg =>
      if !MayMint(w, caller) then Nothing(w, Aborted)
      else
        var root := Root(w.root.content.(minter := None));
        Trace(w.(root := root), Done, [MintDisabled(caller)], [root])
    // The dispatcher has no entry for BurnFrom.
    case BurnFromMsg(_, _) => Nothing(w, Aborted)
    case UnknownMsg => Nothing(w, Aborted)
  }

  /** A message from outside: to the token actor, or to another actor, which runs `body`. */
  datatype External =
    | ToToken(caller: ActorID, msg: Message)
    | ToActor(actor: ActorID, body: Script)

  function Deliver(env: Env, w: World, x: External): Trace<bool> {
    match x
    case ToToken(caller, msg) =>
      var r := Invoke(env, w, caller, msg);
      Trace(r.world, !r.out.Aborted?, r.effects, r.roots)
    case ToActor(actor, body) => CallActor(env, w, actor, body)
  }

  /** Messages from outside, one after the other. */
  function RunAll(env: Env, w: World, calls: seq<External>): Trace<()>
    decreases |calls|
  {
    if calls == [] then Nothing(w, ())
    else
      var r := Deliver(env, w, calls[0]);
      Then(r, RunAll(env, r.world, calls[1..]))
  }

  /** The state a constructor commits. */
  function Constructed(granularity: Granularity, minter: ActorID): FactoryState {
    FactoryState(EMPTY_LEDGER, granularity, Some(minter))
  }

  // ---------------------------------------------------------------- flat replay

  function ApplyActor(s: FactoryState, e: ActorEffect): FactoryState {
    match e
    case OnLedger(_, effect) => s.(token := Apply(s.token, effect))
    case MintDisabled(_) => s.(minter := None)
  }

  /** The effects applied one after the other, without messages, hooks or rollback. */
  function Replay(s: FactoryState, es: seq<ActorEffect>): FactoryState
    decreases |es|
  {
    if es == [] then s else Replay(ApplyActor(s, es[0]), es[1..])
  }

  predicate Enabled(s: FactoryState, e: ActorEffect) {
    match e
    case OnLedger(_, effect) =>
      && !effect.SetBalance?
      && Admissible(s.granularity, effect)
      && Refusal(s.token, effect).None?
      && (effect.Mint? ==> s.minter.Some?)
    case MintDisabled(_) => s.minter.Some?
  }

  /** Every effect is allowed at its point of the replay. */
  predicate Legal(s: FactoryState, es: seq<ActorEffect>)
    decreases |es|
  {
    es == [] || (Enabled(s, es[0]) && Legal(ApplyActor(s, es[0]), es[1..]))
  }

  lemma {:induction false} ReplayAppend(s: FactoryState, a: seq<ActorEffect>, b: seq<ActorEffect>)
    ensures Replay(s, a + b) == Replay(Replay(s, a), b)
    ensures Legal(s, a + b) <==> Legal(s, a) && Legal(Replay(s, a), b)
    decreases |a|
  {
    if a == [] {
      assert a + b == b;
    } else {
      assert (a + b)[0] == a[0] && (a + b)[1..] == a[1..] + b;
      ReplayAppend(ApplyActor(s, a[0]), a[1..], b);
    }
  }

  // ---------------------------------------------------------------- soundness of every run

  ghost predicate StateOk(s: FactoryState) {
    s.token.Valid(s.granularity)
  }

  ghost predicate WorldOk(w: World) {
    StateOk(w.root.content) && w.table.Consistent()
  }

  /** The new state is the flat replay of the surviving effects, all of them legal; every root set on
      the way was valid; accounts were only added. */
  ghost predicate Sound<T>(w: World, r: Trace<T>) {
    && WorldOk(r.world)
    && Legal(w.root.content, r.effects)
    && r.world.root.content == Replay(w.root.content, r.effects)
    && (forall root | root in r.roots :: StateOk(root.content))
    && r.world.table.Extends(w.table)
  }

  lemma SoundThen<T, U>(w: World, first: Trace<T>, second: Trace<U>)
    requires Sound(w, first) && Sound(first.world, second)
    ensures Sound(w, Then(first, second))
  {
    ReplayAppend(w.root.content, first.effects, second.effects);
    ExtendsTransitive(w.table, first.world.table, second.world.table);
  }

  lemma CommitIsSound(w: World, caller: ActorID, op: Op)
    requires WorldOk(w) && !op.OpSetBalance? && (op.OpMint? ==> w.root.content.minter.Some?)
    ensures Sound(w, Commit(w, caller, op))
  {
    var s := w.root.content;
    TokenStepKeepsValid(w.table, s.granularity, s.token, op);
    TokenStepKeepsTable(w.table, s.granularity, s.token, op);
    PlanIsAdmissible(w.table, s.granularity, op);
    var es := EffectsOf(w, caller, op);
    if !Fails(w, op) && es != [] {
      assert es[1..] == [];
    }
  }

  lemma {:induction false} RunIsSound(env: Env, w: World, self: ActorID, s: Script)
    requires WorldOk(w)
    ensures Sound(w, Run(env, w, self, s))
    decreases s, 0
  {
    match s
    case Exit =>
    case Abort =>
    case Send(m, whenOk, whenFailed) =>
      var r := Invoke(env, w, self, m);
      InvokeIsSound(env, w, self, m);
      var next := if r.out.Aborted? then whenFailed else whenOk;
      RunIsSound(env, r.world, self, next);
      SoundThen(w, r, Run(env, r.world, self, next));
    case Call(actor, body, whenOk, whenFailed) =>
      var r := CallActor(env, w, actor, body);
      CallActorIsSound(env, w, actor, body);
      var next := if r.out then whenOk else whenFailed;
      RunIsSound(env, r.world, self, next);
      SoundThen(w, r, Run(env, r.world, self, next));
  }

  lemma {:induction false} CallActorIsSound(env: Env, w: World, actor: ActorID, body: Script)
    requires WorldOk(w)
    ensures Sound(w, CallActor(env, w, actor, body))
    decreases body, 1
  {
    if actor in env.scripted {
      RunIsSound(env, w, actor, body);
    }
  }

  lemma {:induction false} ReceiveIsSound(env: Env, w: World, to: Address, data: Script)
    requires WorldOk(w)
    ensures Sound(w, Receive(env, w, to, data))
    decreases data, 2
  {
    match w.table.Resolve(to)
    case None =>
    case Some(id) => CallActorIsSound(env, w, id, data);
  }

  lemma {:induction false} CommitAndNotifyIsSound(env: Env, w: World, caller: ActorID, op: Op,
                                                  to: Address, data: Script)
    requires WorldOk(w) && !op.OpSetBalance? && (op.OpMint? ==> w.root.content.minter.Some?)
    ensures Sound(w, CommitAndNotify(env, w, caller, op, to, data))
    decreases data, 3
  {
    var c := Commit(w, caller, op);
    CommitIsSound(w, caller, op);
    if c.out {
      ReceiveIsSound(env, c.world, to, data);
      SoundThen(w, c, Receive(env, c.world, to, data));
    }
  }

  lemma {:induction false} InvokeIsSound(env: Env, w: World, caller: ActorID, m: Message)
    requires WorldOk(w)
    ensures Sound(w, Invoke(env, w, caller, m))
    decreases m, 4
  {
    var me := ID(caller);
    var out := Invoke(env, w, caller, m).out;
    match m
    case TransferMsg(to, amount, data) =>
      CommitAndNotifyIsSound(env, w, caller, OpTransfer(me, to, amount), to, data);
      RepliedIsSound(w, CommitAndNotify(env, w, caller, OpTransfer(me, to, amount), to, data), out);
    case TransferFromMsg(from, to, amount, data) =>
      CommitAndNotifyIsSound(env, w, caller, OpTransferFrom(me, from, to, amount), to, data);
      RepliedIsSound(w, CommitAndNotify(env, w, caller, OpTransferFrom(me, from, to, amount), to, data), out);
    case MintMsg(to, amount, data) =>
      if MayMint(w, caller) {
        CommitAndNotifyIsSound(env, w, caller, OpMint(me, to, amount), to, data);
        RepliedIsSound(w, CommitAndNotify(env, w, caller, OpMint(me, to, amount), to, data), out);
      }
    case BurnMsg(amount) => CommitIsSound(w, caller, OpBurn(me, amount));
    case IncreaseMsg(operator, delta) => CommitIsSound(w, caller, OpIncrease(me, operator, delta));
    case DecreaseMsg(operator, delta) => CommitIsSound(w, caller, OpDecrease(me, operator, delta));
    case RevokeMsg(operator) => CommitIsSound(w, caller, OpRevoke(me, operator));
    case DisableMintMsg => assert [MintDisabled(caller)][1..] == [];
    case _ =>
  }

  lemma RepliedIsSound(w: World, r: Trace<bool>, out: Reply)
    requires Sound(w, r)
    ensures Sound(w, Trace(r.world, out, r.effects, r.roots))
  {
  }

  /** A message that aborts, at whatever depth, leaves the committed root and the accounts exactly as
      they were and contributes no effect. */
  lemma AbortedChangesNothing(env: Env, w: World, caller: ActorID, m: Message)
    requires Invoke(env, w, caller, m).out.Aborted?
    ensures Invoke(env, w, caller, m).world == w && Invoke(env, w, caller, m).effects == []
  {
  }

  lemma DeliverIsSound(env: Env, w: World, x: External)
    requires WorldOk(w)
    ensures Sound(w, Deliver(env, w, x))
  {
    match x
    case ToToken(caller, msg) => InvokeIsSound(env, w, caller, msg);
    case ToActor(actor, body) => CallActorIsSound(env, w, actor, body);
  }

  lemma {:induction false} RunAllIsSound(env: Env, w: World, calls: seq<External>)
    requires WorldOk(w)
    ensures Sound(w, RunAll(env, w, calls))
    decreases |calls|
  {
    if calls != [] {
      var r := Deliver(env, w, calls[0]);
      DeliverIsSound(env, w, calls[0]);
      RunAllIsSound(env, r.world, calls[1..]);
      SoundThen(w, r, RunAll(env, r.world, calls[1..]));
    }
  }
}
