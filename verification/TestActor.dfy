/**
 The recursive hook behaviours of frc46_test_actor, run against the token actor.

 The actor is optimistically credited before its hook runs, so what a hook does with the tokens it
 received never fails for lack of them.  Hence whether a whole tree of actions is accepted can be
 read off the tree and the account table alone, and that verdict is exact.
 */
module TestActors {
  import opened Basics
  import opened Addresses
  import L = Ledgers
  import opened Tokens
  import opened TokenContracts
  import opened Messages
  import A = Accounting
  import opened Reentrancy

  datatype TestAction =
    | Accept
    | Reject
    | Transfer(to: Address, instructions: TestAction)
    | Burn
    | ActionThenAbort(action: TestAction)
    | TransferWithFallback(to: Address, instructions: TestAction, fallback: TestAction)

  // ---------------------------------------------------------------- the handlers

  /** What the operator data `a` makes its recipient do on receiving `amount`. */
  function HookScript(a: TestAction, amount: int): Script {
    match a
    case Accept => Exit
    case Reject => Abort
    case Transfer(to, instructions) => Send(TransferMsg(to, amount, HookScript(instructions, amount)), Exit, Exit)
    case Burn => Send(BurnMsg(amount), Exit, Abort)
    case ActionThenAbort(action) => AbortAfter(HookScript(action, amount))
    case TransferWithFallback(to, instructions, fallback) =>
      Send(TransferMsg(to, amount, HookScript(instructions, amount)), Exit, HookScript(fallback, amount))
  }

  function AbortAfter(s: Script): Script {
    match s
    case Exit => Abort
    case Abort => Abort
    case Send(m, whenOk, whenFailed) => Send(m, AbortAfter(whenOk), AbortAfter(whenFailed))
    case Call(actor, body, whenOk, whenFailed) => Call(actor, body, AbortAfter(whenOk), AbortAfter(whenFailed))
  }

  function SendTransfer(env: Env, w: World, self: ActorID, to: Address, amount: int, instructions: TestAction)
    : Trace<Reply>
  {
    Invoke(env, w, self, TransferMsg(to, amount, HookScript(instructions, amount)))
  }

  function Outcome<T>(r: Trace<T>, ok: bool): Trace<bool> {
    Trace(r.world, ok, r.effects, r.roots)
  }

  /** The receiver hook. */
  function HandleReceiveAction(env: Env, w: World, self: ActorID, a: TestAction, amount: int): Trace<bool>
    decreases a
  {
    match a
    case Accept => Nothing(w, true)
    case Reject => Nothing(w, false)
    case Transfer(to, instructions) => Outcome(SendTransfer(env, w, self, to, amount, instructions), true)
    case Burn =>
      var r := Invoke(env, w, self, BurnMsg(amount));
      Outcome(r, !r.out.Aborted?)
    case ActionThenAbort(action) => Outcome(HandleReceiveAction(env, w, self, action, amount), false)
    case TransferWithFallback(to, instructions, fallback) =>
      var r := SendTransfer(env, w, self, to, amount, instructions);
      if r.out.Aborted? then Then(r, HandleReceiveAction(env, r.world, self, fallback, amount))
      else Outcome(r, true)
  }

  /** The Action method: the same actions on the actor's whole balance, read when it is needed. */
  function HandleAction(env: Env, w: World, self: ActorID, a: TestAction): Trace<bool>
    decreases a
  {
    var balance := BalanceIn(w, ID(self));
    match a
    case Accept => Nothing(w, false)
    case Reject => Nothing(w, false)
    case Transfer(to, instructions) => Outcome(SendTransfer(env, w, self, to, balance, instructions), true)
    case Burn =>
      var r := Invoke(env, w, self, BurnMsg(balance));
      Outcome(r, !r.out.Aborted?)
    case ActionThenAbort(action) => Outcome(HandleAction(env, w, self, action), false)
    case TransferWithFallback(to, instructions, fallback) =>
      var r := SendTransfer(env, w, self, to, balance, instructions);
      if r.out.Aborted? then Then(r, HandleAction(env, r.world, self, fallback))
      else Outcome(r, true)
  }

  // ---------------------------------------------------------------- actions are scripts

  lemma ThenNothing<T>(r: Trace<T>, ok: bool)
    ensures Then(r, Nothing(r.world, ok)) == Outcome(r, ok)
  {
  }

  lemma {:induction false} AbortAfterAborts(env: Env, w: World, self: ActorID, s: Script)
    ensures Run(env, w, self, AbortAfter(s)) == Outcome(Run(env, w, self, s), false)
    decreases s
  {
    match s
    case Exit =>
    case Abort =>
    case Send(m, whenOk, whenFailed) =>
      var r := Invoke(env, w, self, m);
      AbortAfterAborts(env, r.world, self, if r.out.Aborted? then whenFailed else whenOk);
    case Call(actor, body, whenOk, whenFailed) =>
      var r := CallActor(env, w, actor, body);
      AbortAfterAborts(env, r.world, self, if r.out then whenOk else whenFailed);
  }

  /** The hook handler does exactly what its script does, so all that holds of every script, such as
      RunIsSound, holds of the handler. */
  lemma {:induction false} HandlerIsScript(env: Env, w: World, self: ActorID, a: TestAction, amount: int)
    ensures HandleReceiveAction(env, w, self, a, amount) == Run(env, w, self, HookScript(a, amount))
    decreases a
  {
    match a
    case Accept =>
    case Reject =>
    case Transfer(to, instructions) => ThenNothing(SendTransfer(env, w, self, to, amount, instructions), true);
    case Burn =>
      var r := Invoke(env, w, self, BurnMsg(amount));
      ThenNothing(r, !r.out.Aborted?);
    case ActionThenAbort(action) =>
      HandlerIsScript(env, w, self, action, amount);
      AbortAfterAborts(env, w, self, HookScript(action, amount));
    case TransferWithFallback(to, instructions, fallback) =>
      var r := SendTransfer(env, w, self, to, amount, instructions);
      ThenNothing(r, true);
      HandlerIsScript(env, r.world, self, fallback, amount);
  }

  /** The Action method changes the world exactly as the hook handler does when told it received the
      actor's whole balance: a transfer that is rejected is undone, so the fallback reads the same
      balance again.  Only the outcome of a bare Accept differs. */
  lemma {:induction false} ActionIsHookOnBalance(env: Env, w: World, self: ActorID, a: TestAction)
    ensures var h, x := HandleReceiveAction(env, w, self, a, BalanceIn(w, ID(self))), HandleAction(env, w, self, a);
            x == Outcome(h, x.out) && (x.out ==> h.out)
    decreases a
  {
    match a
    case ActionThenAbort(action) => ActionIsHookOnBalance(env, w, self, action);
    case TransferWithFallback(to, instructions, fallback) =>
      var balance := BalanceIn(w, ID(self));
      if SendTransfer(env, w, self, to, balance, instructions).out.Aborted? {
        AbortedChangesNothing(env, w, self, TransferMsg(to, balance, HookScript(instructions, balance)));
        ActionIsHookOnBalance(env, w, self, fallback);
      }
    case _ =>
  }

  // ---------------------------------------------------------------- the exact verdict

  predicate Refuses(env: Env, t: AddressTable, a: TestAction)
    decreases a, 0
  {
    match a
    case Accept => false
    case Reject => true
    case Transfer(_, _) => false
    case Burn => false
    case ActionThenAbort(_) => true
    case TransferWithFallback(to, instructions, fallback) =>
      TargetRefuses(env, t, to, instructions) && Refuses(env, t, fallback)
  }

  /** The transfer to `to` fails: it names no actor and none can be created, or an actor that refuses. */
  predicate TargetRefuses(env: Env, t: AddressTable, to: Address, instructions: TestAction)
    decreases instructions, 1
  {
    match t.Resolve(to)
    case None => !to.Instantiable()
    case Some(id) =>
      id == env.token || id in env.rejecting || (id in env.scripted && Refuses(env, t, instructions))
  }

  /** Accounts created from now on are none of the actors the environment names. */
  ghost predicate Fits(env: Env, t: AddressTable) {
    && t.Consistent() && !t.abortNext
    && env.token < t.next
    && (forall id | id in env.scripted || id in env.rejecting :: id < t.next)
  }

  /** New accounts do not change the verdict. */
  lemma {:induction false} VerdictIsStable(env: Env, t: AddressTable, t': AddressTable, a: TestAction)
    requires Fits(env, t) && t'.Extends(t)
    ensures Refuses(env, t, a) <==> Refuses(env, t', a)
  {
    if a.TransferWithFallback? {
      VerdictIsStable(env, t, t', a.instructions);
      VerdictIsStable(env, t, t', a.fallback);
    }
  }

  predicate CanPay(w: World, self: ActorID, amount: int) {
    0 <= amount <= w.root.content.token.Bal(self) && amount % w.root.content.granularity == 0
  }

  /** The operator is somebody else, and allowance and balance of the account at `from` cover the amount. */
  predicate CanSpend(w: World, operator: ActorID, from: Address, amount: int) {
    match w.table.Resolve(from)
    case None => false
    case Some(f) =>
      && operator != f && CanPay(w, f, amount)
      && w.root.content.token.Allow(f, operator) > 0 && w.root.content.token.Allow(f, operator) >= amount
  }

  /** The operations that open a receiver hook. */
  predicate Notifies(op: Op, to: Address, amount: int) {
    match op
    case OpMint(_, owner, v) => owner == to && v == amount
    case OpTransfer(_, r, v) => r == to && v == amount
    case OpTransferFrom(_, _, r, v) => r == to && v == amount
    case _ => false
  }

  /** Inside any hook the recipient already holds at least what it is told it received, whether by a
      mint, a transfer, also to itself, or an operator's transfer. */
  lemma OptimisticCredit(w: World, caller: ActorID, op: Op, to: Address, amount: int)
    requires WorldOk(w) && Notifies(op, to, amount) && Commit(w, caller, op).out
    ensures var w' := Commit(w, caller, op).world;
            w'.table.Resolve(to).Some? && CanPay(w', w'.table.Resolve(to).value, amount)
  {
    var s, w' := w.root.content, Commit(w, caller, op).world;
    PlanNamesActors(w.table, s.granularity, op);
    PlanIsAdmissible(w.table, s.granularity, op);
    TokenStepKeepsValid(w.table, s.granularity, s.token, op);
    var effect := Plan(w.table, s.granularity, op).1.value.value;
    var id := w'.table.Resolve(to).value;
    L.BalanceFacts(s.token, s.granularity, id);
    A.StepBalance(s.token, s.granularity, effect, id);
  }

  /** Burning what was received never fails. */
  lemma BurnSucceeds(env: Env, w: World, self: ActorID, amount: int)
    requires WorldOk(w) && CanPay(w, self, amount)
    ensures !Invoke(env, w, self, BurnMsg(amount)).out.Aborted?
  {
  }

  /** Committing and notifying fails exactly when committing fails or the target refuses. */
  lemma {:induction false} NotifyVerdict(env: Env, w: World, caller: ActorID, op: Op, to: Address, a: TestAction,
                                         amount: int)
    requires WorldOk(w) && Fits(env, w.table) && Notifies(op, to, amount) && !(op.OpMint? && !MayMint(w, caller))
    requires Commit(w, caller, op).out ==> Commit(w, caller, op).world.table == w.table.Init(to).0
    ensures CommitAndNotify(env, w, caller, op, to, HookScript(a, amount)).out
       <==> Commit(w, caller, op).out && !TargetRefuses(env, w.table, to, a)
    decreases a, 2
  {
    var c := Commit(w, caller, op);
    if c.out {
      OptimisticCredit(w, caller, op, to, amount);
      CommitIsSound(w, caller, op);
      ReceiveVerdict(env, w.table, c.world, to, a, amount);
    }
    var notified := CommitAndNotify(env, w, caller, op, to, HookScript(a, amount));
    assert notified.out <==> c.out && Receive(env, c.world, to, HookScript(a, amount)).out;
  }

  /** A transfer fails exactly when the sender does not hold the tokens or the target refuses them. */
  lemma {:induction false} TransferVerdict(env: Env, w: World, self: ActorID, to: Address, a: TestAction, amount: int)
    requires WorldOk(w) && Fits(env, w.table)
    ensures SendTransfer(env, w, self, to, amount, a).out.Aborted?
       <==> !CanPay(w, self, amount) || TargetRefuses(env, w.table, to, a)
    decreases a, 3
  {
    var op := OpTransfer(ID(self), to, amount);
    InitKeepsTable(w.table, to);
    assert Commit(w, self, op).out <==>
      CanPay(w, self, amount) && (w.table.Resolve(to).Some? || to.Instantiable());
    NotifyVerdict(env, w, self, op, to, a, amount);
    var notified := CommitAndNotify(env, w, self, op, to, HookScript(a, amount));
    assert SendTransfer(env, w, self, to, amount, a).out.Aborted? <==> !notified.out;
  }

  /** An operator's transfer is committed exactly when the operator may spend the amount and the target
      exists or can be created. */
  lemma TransferFromCommits(w: World, operator: ActorID, from: Address, to: Address, amount: int)
    requires WorldOk(w) && !w.table.abortNext
    ensures Commit(w, operator, OpTransferFrom(ID(operator), from, to, amount)).out <==>
      CanSpend(w, operator, from, amount) && (w.table.Resolve(to).Some? || to.Instantiable())
  {
    if w.table.Resolve(from).Some? {
      SameIsIdentity(w.table, ID(operator), from);
    }
  }

  /** An operator's transfer fails exactly when the operator may not spend the amount or the target
      refuses it. */
  lemma TransferFromVerdict(env: Env, w: World, operator: ActorID, from: Address, to: Address, a: TestAction,
                            amount: int)
    requires WorldOk(w) && Fits(env, w.table)
    ensures Invoke(env, w, operator, TransferFromMsg(from, to, amount, HookScript(a, amount))).out.Aborted?
       <==> !CanSpend(w, operator, from, amount) || TargetRefuses(env, w.table, to, a)
  {
    var op := OpTransferFrom(ID(operator), from, to, amount);
    InitKeepsTable(w.table, to);
    TransferFromCommits(w, operator, from, to, amount);
    NotifyVerdict(env, w, operator, op, to, a, amount);
    var notified := CommitAndNotify(env, w, operator, op, to, HookScript(a, amount));
    assert Invoke(env, w, operator, TransferFromMsg(from, to, amount, HookScript(a, amount))).out.Aborted?
      <==> !notified.out;
  }

  lemma ReceiveIsHandler(env: Env, w: World, to: Address, a: TestAction, amount: int)
    requires w.table.Resolve(to).Some?
    ensures var id := w.table.Resolve(to).value;
            Receive(env, w, to, HookScript(a, amount)).out <==>
              && id != env.token && id !in env.rejecting
              && (id in env.scripted ==> HandleReceiveAction(env, w, id, a, amount).out)
  {
    HandlerIsScript(env, w, w.table.Resolve(to).value, a, amount);
  }

  /** The verdict of the recipient, whose account may have just been created. */
  lemma {:induction false} ReceiveVerdict(env: Env, t: AddressTable, w: World, to: Address, a: TestAction, amount: int)
    requires WorldOk(w) && Fits(env, t) && w.table == t.Init(to).0 && w.table.Extends(t)
    requires w.table.Resolve(to).Some? && CanPay(w, w.table.Resolve(to).value, amount)
    ensures Receive(env, w, to, HookScript(a, amount)).out <==> !TargetRefuses(env, t, to, a)
    decreases a, 1
  {
    var id := w.table.Resolve(to).value;
    ReceiveIsHandler(env, w, to, a, amount);
    VerdictIsStable(env, t, w.table, a);
    HookVerdict(env, w, id, a, amount);
    if t.Resolve(to).None? {
      assert id == t.next;
    } else {
      assert t.Resolve(to) == Some(id);
    }
  }

  /** The hook accepts exactly when the verdict says so: no hook ever fails for lack of the tokens it
      received, not even in the fallback after a rejected transfer or in a transfer to itself. */
  lemma {:induction false} HookVerdict(env: Env, w: World, self: ActorID, a: TestAction, amount: int)
    requires WorldOk(w) && Fits(env, w.table) && CanPay(w, self, amount)
    ensures HandleReceiveAction(env, w, self, a, amount).out <==> !Refuses(env, w.table, a)
    decreases a, 0
  {
    match a
    case Burn => BurnSucceeds(env, w, self, amount);
    case TransferWithFallback(to, instructions, fallback) =>
      TransferVerdict(env, w, self, to, instructions, amount);
      if SendTransfer(env, w, self, to, amount, instructions).out.Aborted? {
        AbortedChangesNothing(env, w, self, TransferMsg(to, amount, HookScript(instructions, amount)));
        HookVerdict(env, w, self, fallback, amount);
      }
    case _ =>
  }

  // ---------------------------------------------------------------- what hook actions do

  /** A hook that burns destroys what it received and nothing else. */
  lemma BurnActionBurns(env: Env, w: World, self: ActorID, amount: int)
    requires WorldOk(w) && CanPay(w, self, amount)
    ensures var r := HandleReceiveAction(env, w, self, Burn, amount);
            var l, l' := w.root.content.token, r.world.root.content.token;
            r.out && SetsBalance(l, l', self, l.Bal(self) - amount) && KeepsAllowances(l, l')
  {
    BurnMessage(env, w, self, amount);
  }

  /** A hook that forwards to a plain account moves what it received there; to a target that refuses it
      moves nothing.  It accepts in either case. */
  lemma TransferActionMoves(env: Env, w: World, self: ActorID, to: Address, instructions: TestAction, amount: int)
    requires WorldOk(w) && Fits(env, w.table) && CanPay(w, self, amount)
    ensures var r := HandleReceiveAction(env, w, self, Transfer(to, instructions), amount);
            var l, l' := w.root.content.token, r.world.root.content.token;
            && r.out
            && (TargetRefuses(env, w.table, to, instructions) ==> r.world == w)
            && (!TargetRefuses(env, w.table, to, instructions) ==> r.world.table.Resolve(to).Some?)
            && (!TargetRefuses(env, w.table, to, instructions)
                && r.world.table.Resolve(to).value !in env.scripted ==>
                  Moves(l, l', self, r.world.table.Resolve(to).value, amount) && KeepsAllowances(l, l'))
  {
    TransferVerdict(env, w, self, to, instructions, amount);
    TransferMessage(env, w, self, to, amount, HookScript(instructions, amount));
    if TargetRefuses(env, w.table, to, instructions) {
      AbortedChangesNothing(env, w, self, TransferMsg(to, amount, HookScript(instructions, amount)));
    }
  }

  /** The fallback runs, on the same world, exactly if the target refuses; otherwise the action is the
      plain transfer.  An action that then aborts is refused, whatever it did. */
  lemma FallbackRunsExactly(env: Env, w: World, self: ActorID, to: Address, a: TestAction, fallback: TestAction,
                            amount: int)
    requires WorldOk(w) && Fits(env, w.table) && CanPay(w, self, amount)
    ensures var r := HandleReceiveAction(env, w, self, TransferWithFallback(to, a, fallback), amount);
            if TargetRefuses(env, w.table, to, a)
            then var f := HandleReceiveAction(env, w, self, fallback, amount);
                 r.world == f.world && r.out == f.out && r.effects == f.effects
            else r == HandleReceiveAction(env, w, self, Transfer(to, a), amount)
    ensures !HandleReceiveAction(env, w, self, ActionThenAbort(a), amount).out
  {
    TransferVerdict(env, w, self, to, a, amount);
    if TargetRefuses(env, w.table, to, a) {
      AbortedChangesNothing(env, w, self, TransferMsg(to, amount, HookScript(a, amount)));
    }
  }

  /** A mint fails exactly when the caller is not the minter, the amount is not valid, or the target
      refuses the tokens. */
  lemma MintVerdict(env: Env, w: World, caller: ActorID, to: Address, a: TestAction, amount: int)
    requires WorldOk(w) && Fits(env, w.table)
    ensures Invoke(env, w, caller, MintMsg(to, amount, HookScript(a, amount))).out.Aborted?
       <==> !MayMint(w, caller) || ValidateAmount(amount, w.root.content.granularity).Err?
            || TargetRefuses(env, w.table, to, a)
  {
    if MayMint(w, caller) {
      var op := OpMint(ID(caller), to, amount);
      InitKeepsTable(w.table, to);
      assert Commit(w, caller, op).out <==>
        ValidateAmount(amount, w.root.content.granularity).Ok?
        && (w.table.Resolve(to).Some? || to.Instantiable());
      NotifyVerdict(env, w, caller, op, to, a, amount);
      var notified := CommitAndNotify(env, w, caller, op, to, HookScript(a, amount));
      assert Invoke(env, w, caller, MintMsg(to, amount, HookScript(a, amount))).out.Aborted? <==> !notified.out;
    }
  }

  predicate ActionRefuses(env: Env, t: AddressTable, a: TestAction) {
    match a
    case Accept => true
    case TransferWithFallback(to, instructions, fallback) =>
      TargetRefuses(env, t, to, instructions) && ActionRefuses(env, t, fallback)
    case _ => Refuses(env, t, a)
  }

  /** The exact verdict on the Action method. */
  lemma {:induction false} ActionVerdict(env: Env, w: World, self: ActorID, a: TestAction)
    requires WorldOk(w) && Fits(env, w.table)
    ensures HandleAction(env, w, self, a).out <==> !ActionRefuses(env, w.table, a)
    decreases a
  {
    var balance := BalanceIn(w, ID(self));
    L.BalanceFacts(w.root.content.token, w.root.content.granularity, self);
    match a
    case Burn => BurnSucceeds(env, w, self, balance);
    case TransferWithFallback(to, instructions, fallback) =>
      TransferVerdict(env, w, self, to, instructions, balance);
      if SendTransfer(env, w, self, to, balance, instructions).out.Aborted? {
        AbortedChangesNothing(env, w, self, TransferMsg(to, balance, HookScript(instructions, balance)));
        ActionVerdict(env, w, self, fallback);
      }
    case _ =>
  }
}
