/**
 Rolled-back messages leave no trace.  A script is pruned by deleting every message and call that
 aborts in its run, at whatever depth; the pruned script does exactly what the original does, and in
 its run no root that was set is ever undone.
 */
module Rollback {
  import opened Basics
  import opened Addresses
  import opened Tokens
  import opened Reentrancy

  function Pruned(env: Env, w: World, self: ActorID, s: Script): Script
    decreases s, 0
  {
    match s
    case Exit => Exit
    case Abort => Abort
    case Send(m, whenOk, whenFailed) =>
      var r := Invoke(env, w, self, m);
      if r.out.Aborted? then Pruned(env, w, self, whenFailed)
      else Send(PrunedMessage(env, w, self, m), Pruned(env, r.world, self, whenOk), Exit)
    case Call(actor, body, whenOk, whenFailed) =>
      var r := CallActor(env, w, actor, body);
      if !r.out then Pruned(env, w, self, whenFailed)
      else Call(actor, Pruned(env, w, actor, body), Pruned(env, r.world, self, whenOk), Exit)
  }

  function PrunedHook(env: Env, w: World, to: Address, data: Script): Script
    decreases data, 1
  {
    match w.table.Resolve(to)
    case None => data
    case Some(id) => Pruned(env, w, id, data)
  }

  function PrunedMessage(env: Env, w: World, caller: ActorID, m: Message): Message
    decreases m, 2
  {
    var me := ID(caller);
    match m
    case TransferMsg(to, amount, data) =>
      TransferMsg(to, amount, PrunedHook(env, After(w, OpTransfer(me, to, amount)), to, data))
    case TransferFromMsg(from, to, amount, data) =>
      TransferFromMsg(from, to, amount, PrunedHook(env, After(w, OpTransferFrom(me, from, to, amount)), to, data))
    case MintMsg(to, amount, data) =>
      MintMsg(to, amount, PrunedHook(env, After(w, OpMint(me, to, amount)), to, data))
    case _ => m
  }

  /** Same world, same outcome, same effects; and every root set is the state after some prefix of
      the effects, so none was rolled back. */
  ghost predicate Agrees<T>(w: World, original: Trace<T>, pruned: Trace<T>) {
    && pruned.world == original.world
    && pruned.out == original.out
    && pruned.effects == original.effects
    && Prefixes(w.root.content, pruned.effects, pruned.roots)
  }

  ghost predicate Prefixes(s: FactoryState, es: seq<ActorEffect>, roots: seq<Root>) {
    forall root | root in roots :: IsPrefixState(s, es, root.content)
  }

  ghost predicate IsPrefixState(s: FactoryState, es: seq<ActorEffect>, state: FactoryState) {
    exists k | 0 <= k <= |es| :: state == Replay(s, es[..k])
  }

  lemma AgreesThen<T, U>(w: World, f: Trace<T>, f': Trace<T>, g: Trace<U>, g': Trace<U>)
    requires Agrees(w, f, f') && Agrees(f.world, g, g')
    requires f.world.root.content == Replay(w.root.content, f.effects)
    ensures Agrees(w, Then(f, g), Then(f', g'))
  {
    var s, es := w.root.content, f.effects + g.effects;
    forall root | root in f'.roots + g'.roots ensures IsPrefixState(s, es, root.content) {
      if root in f'.roots {
        var k :| 0 <= k <= |f.effects| && root.content == Replay(s, f.effects[..k]);
        assert es[..k] == f.effects[..k];
      } else {
        var k :| 0 <= k <= |g.effects| && root.content == Replay(f.world.root.content, g.effects[..k]);
        assert es[..|f.effects| + k] == f.effects + g.effects[..k];
        ReplayAppend(s, f.effects, g.effects[..k]);
      }
    }
  }

  lemma CommitAgrees(w: World, caller: ActorID, op: Op)
    requires WorldOk(w) && !op.OpSetBalance? && (op.OpMint? ==> w.root.content.minter.Some?)
    ensures Agrees(w, Commit(w, caller, op), Commit(w, caller, op))
  {
    var c := Commit(w, caller, op);
    CommitIsSound(w, caller, op);
    forall root | root in c.roots ensures IsPrefixState(w.root.content, c.effects, root.content) {
      assert c.effects[..|c.effects|] == c.effects;
    }
  }

  /** Deleting everything that is rolled back from a script changes nothing that it does. */
  lemma {:induction false} PrunedAgrees(env: Env, w: World, self: ActorID, s: Script)
    requires WorldOk(w)
    ensures Agrees(w, Run(env, w, self, s), Run(env, w, self, Pruned(env, w, self, s)))
    decreases s, 0
  {
    match s
    case Exit =>
    case Abort =>
    case Send(m, whenOk, whenFailed) =>
      var r := Invoke(env, w, self, m);
      InvokeIsSound(env, w, self, m);
      if r.out.Aborted? {
        AbortedChangesNothing(env, w, self, m);
        PrunedAgrees(env, w, self, whenFailed);
        SkipNothing(w, r, Run(env, w, self, whenFailed));
      } else {
        var m' := PrunedMessage(env, w, self, m);
        PrunedMessageAgrees(env, w, self, m);
        PrunedAgrees(env, r.world, self, whenOk);
        AgreesThen(w, r, Invoke(env, w, self, m'),
                   Run(env, r.world, self, whenOk), Run(env, r.world, self, Pruned(env, r.world, self, whenOk)));
      }
    case Call(actor, body, whenOk, whenFailed) =>
      var r := CallActor(env, w, actor, body);
      CallActorIsSound(env, w, actor, body);
      if !r.out {
        PrunedAgrees(env, w, self, whenFailed);
        SkipNothing(w, r, Run(env, w, self, whenFailed));
      } else {
        PrunedAgrees(env, w, actor, body);
        PrunedAgrees(env, r.world, self, whenOk);
        AgreesThen(w, r, CallActor(env, w, actor, Pruned(env, w, actor, body)),
                   Run(env, r.world, self, whenOk), Run(env, r.world, self, Pruned(env, r.world, self, whenOk)));
      }
  }

  lemma SkipNothing<T, U>(w: World, nothing: Trace<T>, rest: Trace<U>)
    requires nothing.effects == []
    ensures Then(nothing, rest).world == rest.world && Then(nothing, rest).out == rest.out
    ensures Then(nothing, rest).effects == rest.effects
  {
  }

  lemma {:induction false} PrunedHookAgrees(env: Env, w: World, to: Address, data: Script)
    requires WorldOk(w) && Receive(env, w, to, data).out
    ensures Agrees(w, Receive(env, w, to, data), Receive(env, w, to, PrunedHook(env, w, to, data)))
    decreases data, 1
  {
    PrunedAgrees(env, w, w.table.Resolve(to).value, data);
  }

  lemma {:induction false} PrunedNotifyAgrees(env: Env, w: World, caller: ActorID, op: Op, to: Address, data: Script)
    requires WorldOk(w) && !op.OpSetBalance? && (op.OpMint? ==> w.root.content.minter.Some?)
    requires CommitAndNotify(env, w, caller, op, to, data).out
    ensures Agrees(w, CommitAndNotify(env, w, caller, op, to, data),
                   CommitAndNotify(env, w, caller, op, to, PrunedHook(env, After(w, op), to, data)))
    decreases data, 2
  {
    var c := Commit(w, caller, op);
    CommitIsSound(w, caller, op);
    CommitAgrees(w, caller, op);
    PrunedHookAgrees(env, c.world, to, data);
    AgreesThen(w, c, c, Receive(env, c.world, to, data),
               Receive(env, c.world, to, PrunedHook(env, c.world, to, data)));
  }

  lemma {:induction false} PrunedMessageAgrees(env: Env, w: World, caller: ActorID, m: Message)
    requires WorldOk(w) && !Invoke(env, w, caller, m).out.Aborted?
    ensures Agrees(w, Invoke(env, w, caller, m), Invoke(env, w, caller, PrunedMessage(env, w, caller, m)))
    decreases m, 3
  {
    var me := ID(caller);
    match m
    case TransferMsg(to, amount, data) => PrunedNotifyAgrees(env, w, caller, OpTransfer(me, to, amount), to, data);
    case TransferFromMsg(from, to, amount, data) =>
      PrunedNotifyAgrees(env, w, caller, OpTransferFrom(me, from, to, amount), to, data);
    case MintMsg(to, amount, data) => PrunedNotifyAgrees(env, w, caller, OpMint(me, to, amount), to, data);
    case BurnMsg(amount) => CommitAgrees(w, caller, OpBurn(me, amount));
    case IncreaseMsg(operator, delta) => CommitAgrees(w, caller, OpIncrease(me, operator, delta));
    case DecreaseMsg(operator, delta) => CommitAgrees(w, caller, OpDecrease(me, operator, delta));
    case RevokeMsg(operator) => CommitAgrees(w, caller, OpRevoke(me, operator));
    case DisableMintMsg =>
      var es := [MintDisabled(caller)];
      assert es[..1] == es && es[1..] == [];
      assert IsPrefixState(w.root.content, es, Replay(w.root.content, es[..1]));
      var r := Invoke(env, w, caller, m);
      assert r.effects == es && r.roots == [Root(Replay(w.root.content, es))];
    case _ =>
  }
}
