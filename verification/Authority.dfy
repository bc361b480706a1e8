/**
 Who causes what in a run, however messages nest.  Every surviving effect is one its own sender may
 cause; an actor none of whose messages survives loses no more than its operators were allowed to take
 before the run.
 */
module Authority {
  import opened Basics
  import opened Addresses
  import opened Ledgers
  import opened Tokens
  import opened Accounting
  import opened Reentrancy
  import opened Histories

  /** The sender may cause the effect: it is the owner, the operator whose allowance is spent, or the
      minter.  No message sets a balance. */
  predicate Authorised(minter: Option<ActorID>, e: ActorEffect) {
    match e
    case OnLedger(sender, Mint(_, _)) => minter == Some(sender)
    case OnLedger(sender, Transfer(from, _, _)) => sender == from
    case OnLedger(sender, TransferFrom(operator, _, _, _)) => sender == operator
    case OnLedger(sender, Burn(owner, _)) => sender == owner
    case OnLedger(sender, BurnFrom(operator, _, _)) => sender == operator
    case OnLedger(sender, Increase(owner, _, _)) => sender == owner
    case OnLedger(sender, Decrease(owner, _, _)) => sender == owner
    case OnLedger(sender, SetAllowance(owner, _, _)) => sender == owner
    case OnLedger(_, SetBalance(_, _)) => false
    case MintDisabled(sender) => minter == Some(sender)
  }

  /** Every surviving effect was caused, within its authority, by one of the senders; nobody became
      the minter. */
  ghost predicate Signed<T>(senders: set<ActorID>, w: World, r: Trace<T>) {
    && (forall e | e in r.effects :: Authorised(w.root.content.minter, e) && e.sender in senders)
    && (r.world.root.content.minter == w.root.content.minter || r.world.root.content.minter.None?)
  }

  // ---------------------------------------------------------------- effects are signed

  function CallerOf(op: Op): Address {
    match op
    case OpMint(operator, _, _) => operator
    case OpTransfer(from, _, _) => from
    case OpTransferFrom(operator, _, _, _) => operator
    case OpBurn(owner, _) => owner
    case OpBurnFrom(operator, _, _) => operator
    case OpIncrease(owner, _, _) => owner
    case OpDecrease(owner, _, _) => owner
    case OpRevoke(owner, _) => owner
    case OpSetAllowance(owner, _, _) => owner
    case OpSetBalance(owner, _) => owner
  }

  predicate MaySend(w: World, caller: ActorID, op: Op) {
    CallerOf(op) == ID(caller) && !op.OpSetBalance? && (op.OpMint? ==> MayMint(w, caller))
  }

  lemma CommitIsSigned(w: World, caller: ActorID, op: Op)
    requires MaySend(w, caller, op)
    ensures Signed({caller}, w, Commit(w, caller, op))
  {
    PlanNamesActors(w.table, w.root.content.granularity, op);
  }

  lemma CommitAndNotifyIsSigned(env: Env, w: World, caller: ActorID, op: Op, to: Address, data: Script)
    requires MaySend(w, caller, op)
    ensures Signed(env.scripted + {caller}, w, CommitAndNotify(env, w, caller, op, to, data))
    decreases data, 3
  {
    var c := Commit(w, caller, op);
    CommitIsSigned(w, caller, op);
    if c.out && c.world.table.Resolve(to).Some? {
      CallIsSigned(env, c.world, c.world.table.Resolve(to).value, data);
    }
  }

  lemma {:induction false} CallIsSigned(env: Env, w: World, actor: ActorID, body: Script)
    ensures Signed(env.scripted, w, CallActor(env, w, actor, body))
    decreases body, 1
  {
    if actor in env.scripted {
      RunIsSigned(env, w, actor, body);
      assert env.scripted + {actor} == env.scripted;
    }
  }

  lemma {:induction false} RunIsSigned(env: Env, w: World, self: ActorID, s: Script)
    ensures Signed(env.scripted + {self}, w, Run(env, w, self, s))
    decreases s, 0
  {
    match s
    case Exit =>
    case Abort =>
    case Send(m, whenOk, whenFailed) =>
      var r := Invoke(env, w, self, m);
      InvokeIsSigned(env, w, self, m);
      RunIsSigned(env, r.world, self, if r.out.Aborted? then whenFailed else whenOk);
    case Call(actor, body, whenOk, whenFailed) =>
      var r := CallActor(env, w, actor, body);
      CallIsSigned(env, w, actor, body);
      RunIsSigned(env, r.world, self, if r.out then whenOk else whenFailed);
  }

  lemma {:induction false} InvokeIsSigned(env: Env, w: World, caller: ActorID, m: Message)
    ensures Signed(env.scripted + {caller}, w, Invoke(env, w, caller, m))
    decreases m, 4
  {
    var me := ID(caller);
    match m
    case TransferMsg(to, amount, data) =>
      CommitAndNotifyIsSigned(env, w, caller, OpTransfer(me, to, amount), to, data);
    case TransferFromMsg(from, to, amount, data) =>
      CommitAndNotifyIsSigned(env, w, caller, OpTransferFrom(me, from, to, amount), to, data);
    case MintMsg(to, amount, data) =>
      if MayMint(w, caller) {
        CommitAndNotifyIsSigned(env, w, caller, OpMint(me, to, amount), to, data);
      }
    case BurnMsg(amount) => CommitIsSigned(w, caller, OpBurn(me, amount));
    case IncreaseMsg(operator, delta) => CommitIsSigned(w, caller, OpIncrease(me, operator, delta));
    case DecreaseMsg(operator, delta) => CommitIsSigned(w, caller, OpDecrease(me, operator, delta));
    case RevokeMsg(operator) => CommitIsSigned(w, caller, OpRevoke(me, operator));
    case _ =>
  }

  /** The actors that send messages to the token actor from outside. */
  function Callers(calls: seq<External>): set<ActorID> {
    set i | 0 <= i < |calls| && calls[i].ToToken? :: calls[i].caller
  }

  /** Every surviving effect of a run was within the authority of the actor that sent its message, and
      that actor is a caller from outside or runs a script. */
  lemma {:induction false} RunAllIsSigned(env: Env, w: World, calls: seq<External>)
    ensures Signed(env.scripted + Callers(calls), w, RunAll(env, w, calls))
    decreases |calls|
  {
    if calls != [] {
      var r := Deliver(env, w, calls[0]);
      match calls[0] {
        case ToToken(caller, msg) =>
          InvokeIsSigned(env, w, caller, msg);
          assert caller in Callers(calls);
        case ToActor(actor, body) => CallIsSigned(env, w, actor, body);
      }
      RunAllIsSigned(env, r.world, calls[1..]);
      forall x | x in Callers(calls[1..]) ensures x in Callers(calls) {
        var i :| 0 <= i < |calls| - 1 && calls[1..][i].ToToken? && calls[1..][i].caller == x;
        assert calls[i + 1].ToToken? && calls[i + 1].caller == x;
      }
    }
  }

  // ---------------------------------------------------------------- what an idle account keeps

  /** All that the operators of `x` may still take. */
  ghost function Allowed(s: FactoryState, x: ActorID): int {
    Sum(Inner(s.token.allowances.content, x))
  }

  lemma SpendLowers(l: Ledger, operator: ActorID, owner: ActorID, amount: int, x: ActorID)
    ensures Sum(Inner(Spend(l, operator, owner, amount).allowances.content, x))
         == Sum(Inner(l.allowances.content, x)) - if x == owner then amount else 0
  {
    var m, v := l.allowances.content, l.Allow(owner, operator) - amount;
    if x == owner {
      assert Inner(PutAllowance(m, owner, operator, v), x) == Put(Inner(m, x), operator, v);
      SumPut(Inner(m, x), operator, v);
    } else {
      assert Inner(PutAllowance(m, owner, operator, v), x) == Inner(m, x);
    }
  }

  /** An effect that `x` did not cause takes from it only what it takes from its allowances. */
  lemma StepKeepsIdle(s: FactoryState, e: ActorEffect, minter: Option<ActorID>, x: ActorID)
    requires StateOk(s) && Enabled(s, e) && Authorised(minter, e) && e.sender != x
    ensures var s' := ApplyActor(s, e);
            && Allowed(s', x) <= Allowed(s, x)
            && s'.token.Bal(x) - Allowed(s', x) >= s.token.Bal(x) - Allowed(s, x)
  {
    if e.OnLedger? {
      StepBalance(s.token, s.granularity, e.effect, x);
    }
    match e
    case OnLedger(_, TransferFrom(operator, from, _, amount)) => SpendLowers(s.token, operator, from, amount, x);
    case OnLedger(_, BurnFrom(operator, owner, amount)) => SpendLowers(s.token, operator, owner, amount, x);
    case _ =>
  }

  lemma {:induction false} ReplayKeepsIdle(s: FactoryState, es: seq<ActorEffect>, minter: Option<ActorID>, x: ActorID)
    requires StateOk(s) && Legal(s, es) && forall e | e in es :: Authorised(minter, e) && e.sender != x
    ensures var s' := Replay(s, es);
            && Allowed(s', x) <= Allowed(s, x)
            && s'.token.Bal(x) - Allowed(s', x) >= s.token.Bal(x) - Allowed(s, x)
    decreases |es|
  {
    if es != [] {
      StepKeepsOk(s, es[0]);
      StepKeepsIdle(s, es[0], minter, x);
      ReplayKeepsIdle(ApplyActor(s, es[0]), es[1..], minter, x);
    }
  }

  /** In every run in which no message of `x` takes effect, whatever the others do and however they
      re-enter: the operators of `x` get no more allowance, and what `x` loses is covered by the
      allowance they use up; an account without operators loses nothing. */
  lemma IdleAccountIsSafe(env: Env, w: World, calls: seq<External>, x: ActorID)
    requires WorldOk(w) && forall e | e in RunAll(env, w, calls).effects :: e.sender != x
    ensures var s, s' := w.root.content, RunAll(env, w, calls).world.root.content;
            && Allowed(s', x) <= Allowed(s, x)
            && s.token.Bal(x) - s'.token.Bal(x) <= Allowed(s, x) - Allowed(s', x)
            && (x !in s.token.allowances.content ==> s'.token.Bal(x) >= s.token.Bal(x))
  {
    var r := RunAll(env, w, calls);
    RunAllIsSound(env, w, calls);
    RunAllIsSigned(env, w, calls);
    ReplayKeepsIdle(w.root.content, r.effects, w.root.content.minter, x);
    SumNonNegative(Inner(r.world.root.content.token.allowances.content, x));
  }

  /** In particular an account that runs no script and sends nothing from outside. */
  lemma BystanderIsIdle(env: Env, w: World, calls: seq<External>, x: ActorID)
    requires x !in env.scripted && x !in Callers(calls)
    ensures forall e | e in RunAll(env, w, calls).effects :: e.sender != x
  {
    RunAllIsSigned(env, w, calls);
  }

  /** While no message of the minter takes effect, supply never rises and it stays the minter. */
  lemma OnlyTheMinterMints(env: Env, w: World, calls: seq<External>)
    requires WorldOk(w)
    requires forall e | e in RunAll(env, w, calls).effects :: Some(e.sender) != w.root.content.minter
    ensures var s, s' := w.root.content, RunAll(env, w, calls).world.root.content;
            s'.minter == s.minter && s'.token.supply <= s.token.supply
  {
    var s, es := w.root.content, RunAll(env, w, calls).effects;
    RunAllIsSound(env, w, calls);
    RunAllIsSigned(env, w, calls);
    ReplayWithoutMinter(s, es, s.minter);
  }

  lemma StepWithoutMinter(s: FactoryState, e: ActorEffect, minter: Option<ActorID>)
    requires Enabled(s, e) && Authorised(minter, e) && Some(e.sender) != minter
    ensures ApplyActor(s, e).minter == s.minter && ApplyActor(s, e).token.supply <= s.token.supply
  {
  }

  lemma {:induction false} ReplayWithoutMinter(s: FactoryState, es: seq<ActorEffect>, minter: Option<ActorID>)
    requires Legal(s, es) && forall e | e in es :: Authorised(minter, e) && Some(e.sender) != minter
    ensures Replay(s, es).minter == s.minter && Replay(s, es).token.supply <= s.token.supply
    decreases |es|
  {
    if es != [] {
      StepWithoutMinter(s, es[0], minter);
      ReplayWithoutMinter(ApplyActor(s, es[0]), es[1..], minter);
    }
  }
}
