/**
 Every message to the token actor, said without its stages: exactly when it is carried out, what it
 makes of each balance, each allowance, the supply and the minter, and what the sender is told.
 */
module Messages {
  import opened Basics
  import opened Addresses
  import L = Ledgers
  import opened Tokens
  import opened TokenContracts
  import A = Accounting
  import opened Reentrancy
  import H = Histories

  function LedgerOf(w: World): L.Ledger {
    w.root.content.token
  }

  /** The actor apart from its ledger is the same, and at most these addresses got accounts. */
  ghost predicate KeepsRest(w: World, w': World, accounts: set<Address>) {
    && w'.root.content.minter == w.root.content.minter
    && w'.root.content.granularity == w.root.content.granularity
    && OnlyOpens(w.table, w'.table, accounts)
  }

  // ---------------------------------------------------------------- messages without a hook

  lemma BurnMessage(env: Env, w: World, caller: ActorID, amount: int)
    requires WorldOk(w)
    ensures var r := Invoke(env, w, caller, BurnMsg(amount));
            var l, l' := LedgerOf(w), LedgerOf(r.world);
            && (!r.out.Aborted? <==> ValidAmount(amount, w.root.content.granularity) && amount <= l.Bal(caller))
            && (!r.out.Aborted? ==>
                  && r.out == Amount(l'.Bal(caller)) && KeepsRest(w, r.world, {})
                  && SetsBalance(l, l', caller, l.Bal(caller) - amount) && KeepsAllowances(l, l'))
  {
    BurnExactly(w.table, w.root.content.granularity, LedgerOf(w), ID(caller), amount);
  }

  lemma IncreaseMessage(env: Env, w: World, caller: ActorID, operator: Address, delta: int)
    requires WorldOk(w)
    ensures var r := Invoke(env, w, caller, IncreaseMsg(operator, delta));
            var l, l' := LedgerOf(w), LedgerOf(r.world);
            && (!r.out.Aborted? <==> delta >= 0 && w.table.Reaches(operator))
            && (!r.out.Aborted? ==>
                  && r.world.table.Resolve(operator).Some? && KeepsRest(w, r.world, {operator})
                  && KeepsBalances(l, l')
                  && var p := r.world.table.Resolve(operator).value;
                     && SetsAllowance(l, l', caller, p, l.Allow(caller, p) + delta)
                     && r.out == Amount(l'.Allow(caller, p)))
  {
    IncreaseExactly(w.table, w.root.content.granularity, LedgerOf(w), ID(caller), operator, delta);
  }

  /** The allowance goes down by `delta`, but not below zero. */
  lemma DecreaseMessage(env: Env, w: World, caller: ActorID, operator: Address, delta: int)
    requires WorldOk(w)
    ensures var r := Invoke(env, w, caller, DecreaseMsg(operator, delta));
            var l, l' := LedgerOf(w), LedgerOf(r.world);
            && (!r.out.Aborted? <==> delta >= 0 && w.table.Reaches(operator))
            && (!r.out.Aborted? ==>
                  && r.world.table.Resolve(operator).Some? && KeepsRest(w, r.world, {operator})
                  && KeepsBalances(l, l')
                  && var p := r.world.table.Resolve(operator).value;
                     var v := l.Allow(caller, p);
                     && SetsAllowance(l, l', caller, p, if v > delta then v - delta else 0)
                     && r.out == Amount(l'.Allow(caller, p)))
  {
    DecreaseExactly(w.table, w.root.content.granularity, LedgerOf(w), ID(caller), operator, delta);
  }

  lemma RevokeMessage(env: Env, w: World, caller: ActorID, operator: Address)
    requires WorldOk(w)
    ensures var r := Invoke(env, w, caller, RevokeMsg(operator));
            var l, l' := LedgerOf(w), LedgerOf(r.world);
            && r.out == Done && KeepsRest(w, r.world, {})
            && (match w.table.Resolve(operator)
                case Some(p) => KeepsBalances(l, l') && SetsAllowance(l, l', caller, p, 0)
                case None => l' == l)
  {
    RevokeExactly(w.table, w.root.content.granularity, LedgerOf(w), ID(caller), operator);
  }

  /** Only the minter may disable minting; it then changes nothing but the minter. */
  lemma DisableMintMessage(env: Env, w: World, caller: ActorID)
    ensures var r := Invoke(env, w, caller, DisableMintMsg);
            && (!r.out.Aborted? <==> w.root.content.minter == Some(caller))
            && (!r.out.Aborted? ==>
                  && r.out == Done && r.world.table == w.table
                  && r.world.root.content.minter == None && LedgerOf(r.world) == LedgerOf(w)
                  && r.world.root.content.granularity == w.root.content.granularity)
  {
  }

  /** The queries tell the state and change nothing; an address that does not resolve has nothing.
      BurnFrom and unknown messages abort. */
  lemma QueryMessages(env: Env, w: World, caller: ActorID, owner: Address, operator: Address, amount: int)
    ensures var l := LedgerOf(w);
            && Invoke(env, w, caller, BalanceOfMsg(owner)).out
               == Amount(match w.table.Resolve(owner) case Some(o) => l.Bal(o) case None => 0)
            && Invoke(env, w, caller, AllowanceMsg(owner, operator)).out
               == Amount(match (w.table.Resolve(owner), w.table.Resolve(operator))
                         case (Some(o), Some(p)) => l.Allow(o, p)
                         case _ => 0)
            && Invoke(env, w, caller, TotalSupplyMsg).out == Amount(l.supply)
            && Invoke(env, w, caller, BurnFromMsg(owner, amount)).out == Aborted
            && Invoke(env, w, caller, UnknownMsg).out == Aborted
    ensures forall m | m in {BalanceOfMsg(owner), AllowanceMsg(owner, operator), TotalSupplyMsg} ::
              Invoke(env, w, caller, m).world == w && Invoke(env, w, caller, m).roots == []
  {
  }

  // ---------------------------------------------------------------- messages with a hook

  /** Once the operation is committed the recipient's hook runs on the new world; the world it leaves is
      the final one, and its refusal is the failure of the whole. */
  lemma HookRunsLast(env: Env, w: World, caller: ActorID, op: Op, to: Address, data: Script)
    ensures var c, r := Commit(w, caller, op), CommitAndNotify(env, w, caller, op, to, data);
            && (r.out <==> c.out && Receive(env, c.world, to, data).out)
            && (c.out ==> c.roots == [c.world.root])
            && (r.out ==>
                  && r.world == Receive(env, c.world, to, data).world
                  && r.roots == c.roots + Receive(env, c.world, to, data).roots)
  {
  }

  /** `a` named `id` before the hook, so it still does afterwards. */
  lemma StillNames(env: Env, w: World, caller: ActorID, op: Op, to: Address, data: Script, a: Address)
    requires WorldOk(w) && !op.OpSetBalance? && (op.OpMint? ==> w.root.content.minter.Some?)
    requires CommitAndNotify(env, w, caller, op, to, data).out
    requires Commit(w, caller, op).world.table.Resolve(a).Some?
    ensures CommitAndNotify(env, w, caller, op, to, data).world.table.Resolve(a)
         == Commit(w, caller, op).world.table.Resolve(a)
  {
    var c := Commit(w, caller, op);
    CommitIsSound(w, caller, op);
    ReceiveIsSound(env, c.world, to, data);
  }

  /** A balance in the final state, accounted for by the effects that survived. */
  ghost predicate Accounted(l: L.Ledger, r: Trace<Reply>, a: ActorID, balance: int) {
    var es := H.LedgerEffects(r.effects);
    balance == LedgerOf(r.world).Bal(a) == l.Bal(a) + A.Credited(l, es, a) - A.Debited(l, es, a)
  }

  lemma BalancesAreAccounted(env: Env, w: World, caller: ActorID, m: Message, a: ActorID)
    requires WorldOk(w)
    ensures var r := Invoke(env, w, caller, m); Accounted(LedgerOf(w), r, a, LedgerOf(r.world).Bal(a))
  {
    var r, s := Invoke(env, w, caller, m), w.root.content;
    InvokeIsSound(env, w, caller, m);
    H.ReplayIsApplyAll(s, r.effects);
    A.BalanceHistory(s.token, s.granularity, H.LedgerEffects(r.effects), a);
  }

  /** Transfer: the hook sees the tokens moved; the reply has the two balances of the state in which the
      hook left the actor, whatever it did. */
  lemma TransferMessage(env: Env, w: World, caller: ActorID, to: Address, amount: int, data: Script)
    requires WorldOk(w)
    ensures var l, c := LedgerOf(w), Commit(w, caller, OpTransfer(ID(caller), to, amount));
            && (c.out <==> ValidAmount(amount, w.root.content.granularity) && w.table.Reaches(to)
                           && amount <= l.Bal(caller))
            && (c.out ==>
                  && c.world.table.Resolve(to).Some? && KeepsRest(w, c.world, {to})
                  && Moves(l, LedgerOf(c.world), caller, c.world.table.Resolve(to).value, amount)
                  && KeepsAllowances(l, LedgerOf(c.world)))
    ensures var c := Commit(w, caller, OpTransfer(ID(caller), to, amount));
            var h, r := Receive(env, c.world, to, data), Invoke(env, w, caller, TransferMsg(to, amount, data));
            && (!r.out.Aborted? <==> c.out && h.out)
            && (!r.out.Aborted? ==>
                  && r.world == h.world && r.roots == [c.world.root] + h.roots
                  && r.world.table.Resolve(to) == c.world.table.Resolve(to) && r.world.table.Resolve(to).Some?
                  && r.out.Moved?
                  && Accounted(LedgerOf(w), r, caller, r.out.fromBalance)
                  && Accounted(LedgerOf(w), r, r.world.table.Resolve(to).value, r.out.toBalance))
  {
    var op := OpTransfer(ID(caller), to, amount);
    TransferExactly(w.table, w.root.content.granularity, LedgerOf(w), ID(caller), to, amount);
    HookRunsLast(env, w, caller, op, to, data);
    var r := Invoke(env, w, caller, TransferMsg(to, amount, data));
    if !r.out.Aborted? {
      StillNames(env, w, caller, op, to, data, to);
      BalancesAreAccounted(env, w, caller, TransferMsg(to, amount, data), caller);
      BalancesAreAccounted(env, w, caller, TransferMsg(to, amount, data), r.world.table.Resolve(to).value);
    }
  }

  /** An operator's transfer: the same, and the reply has the allowance of the final state. */
  lemma TransferFromMessage(env: Env, w: World, caller: ActorID, from: Address, to: Address, amount: int, data: Script)
    requires WorldOk(w)
    ensures var l, c := LedgerOf(w), Commit(w, caller, OpTransferFrom(ID(caller), from, to, amount));
            && (c.out <==> ValidAmount(amount, w.root.content.granularity) && w.table.Reaches(to)
                           && MaySpend(w.table, l, ID(caller), from, amount))
            && (c.out ==>
                  && c.world.table.Resolve(to).Some? && KeepsRest(w, c.world, {to})
                  && var f := w.table.Resolve(from).value;
                     && Moves(l, LedgerOf(c.world), f, c.world.table.Resolve(to).value, amount)
                     && SetsAllowance(l, LedgerOf(c.world), f, caller, l.Allow(f, caller) - amount))
    ensures var c := Commit(w, caller, OpTransferFrom(ID(caller), from, to, amount));
            var h := Receive(env, c.world, to, data);
            var r := Invoke(env, w, caller, TransferFromMsg(from, to, amount, data));
            && (!r.out.Aborted? <==> c.out && h.out)
            && (!r.out.Aborted? ==>
                  && r.world == h.world && r.roots == [c.world.root] + h.roots
                  && r.world.table.Resolve(to) == c.world.table.Resolve(to) && r.world.table.Resolve(to).Some?
                  && r.world.table.Resolve(from) == w.table.Resolve(from) && w.table.Resolve(from).Some?
                  && r.out.MovedFrom?
                  && r.out.allowance == LedgerOf(r.world).Allow(w.table.Resolve(from).value, caller)
                  && Accounted(LedgerOf(w), r, w.table.Resolve(from).value, r.out.fromBalance)
                  && Accounted(LedgerOf(w), r, r.world.table.Resolve(to).value, r.out.toBalance))
  {
    var op := OpTransferFrom(ID(caller), from, to, amount);
    TransferFromExactly(w.table, w.root.content.granularity, LedgerOf(w), ID(caller), from, to, amount);
    HookRunsLast(env, w, caller, op, to, data);
    var m := TransferFromMsg(from, to, amount, data);
    var r := Invoke(env, w, caller, m);
    if !r.out.Aborted? {
      assert Commit(w, caller, op).world.table.Resolve(from) == w.table.Resolve(from);
      StillNames(env, w, caller, op, to, data, to);
      StillNames(env, w, caller, op, to, data, from);
      BalancesAreAccounted(env, w, caller, m, w.table.Resolve(from).value);
      BalancesAreAccounted(env, w, caller, m, r.world.table.Resolve(to).value);
    }
  }

  /** Mint, by the minter only: the reply has the owner's balance and the supply of the final state. */
  lemma MintMessage(env: Env, w: World, caller: ActorID, to: Address, amount: int, data: Script)
    requires WorldOk(w)
    ensures var l, c := LedgerOf(w), Commit(w, caller, OpMint(ID(caller), to, amount));
            && (c.out <==> ValidAmount(amount, w.root.content.granularity) && w.table.Reaches(to))
            && (c.out ==>
                  && c.world.table.Resolve(to).Some? && KeepsRest(w, c.world, {to})
                  && var o := c.world.table.Resolve(to).value;
                     && SetsBalance(l, LedgerOf(c.world), o, l.Bal(o) + amount)
                     && KeepsAllowances(l, LedgerOf(c.world)))
    ensures var c := Commit(w, caller, OpMint(ID(caller), to, amount));
            var h, r := Receive(env, c.world, to, data), Invoke(env, w, caller, MintMsg(to, amount, data));
            && (!r.out.Aborted? <==> w.root.content.minter == Some(caller) && c.out && h.out)
            && (!r.out.Aborted? ==>
                  && r.world == h.world && r.roots == [c.world.root] + h.roots
                  && r.world.table.Resolve(to) == c.world.table.Resolve(to) && r.world.table.Resolve(to).Some?
                  && r.out.Minted? && r.out.supply == LedgerOf(r.world).supply
                  && Accounted(LedgerOf(w), r, r.world.table.Resolve(to).value, r.out.balance))
  {
    var op := OpMint(ID(caller), to, amount);
    MintExactly(w.table, w.root.content.granularity, LedgerOf(w), ID(caller), to, amount);
    HookRunsLast(env, w, caller, op, to, data);
    var r := Invoke(env, w, caller, MintMsg(to, amount, data));
    if !r.out.Aborted? {
      StillNames(env, w, caller, op, to, data, to);
      BalancesAreAccounted(env, w, caller, MintMsg(to, amount, data), r.world.table.Resolve(to).value);
    }
  }

  // ---------------------------------------------------------------- the constructor, and other actors

  /** After construction nobody has anything, and exactly the given minter may mint. */
  lemma ConstructedExactly(g: Granularity, minter: ActorID)
    ensures var s := Constructed(g, minter);
            && s.minter == Some(minter) && s.granularity == g && s.token.supply == 0
            && (forall a :: s.token.Bal(a) == 0) && (forall o, p :: s.token.Allow(o, p) == 0)
  {
  }

  /** A call of another actor that fails is undone as well. */
  lemma FailedCallChangesNothing(env: Env, w: World, actor: ActorID, body: Script)
    requires !CallActor(env, w, actor, body).out
    ensures CallActor(env, w, actor, body).world == w && CallActor(env, w, actor, body).effects == []
  {
  }
}
