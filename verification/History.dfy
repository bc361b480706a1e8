/**
 What a run of the token actor adds up to.  RunAllIsSound reduces every run, however its messages nest
 and abort, to a flat list of legal effects, and those on the ledger are accounted for in Accounting.
 */
module Histories {
  import opened Basics
  import opened Addresses
  import opened Ledgers
  import opened TokenStates
  import opened Tokens
  import opened Accounting
  import opened Reentrancy

  function LedgerEffects(es: seq<ActorEffect>): seq<Effect> {
    if es == [] then []
    else if es[0].OnLedger? then [es[0].effect] + LedgerEffects(es[1..])
    else LedgerEffects(es[1..])
  }

  predicate Mints(e: ActorEffect) {
    e.OnLedger? && e.effect.Mint?
  }

  lemma StepKeepsOk(s: FactoryState, e: ActorEffect)
    requires StateOk(s) && Enabled(s, e)
    ensures StateOk(ApplyActor(s, e))
  {
    match e
    case OnLedger(_, effect) => ApplyKeepsValid(s.token, s.granularity, effect);
    case MintDisabled(_) =>
  }

  /** The ledger of a replayed history is that of its ledger effects, all accepted; no message sets a
      balance. */
  lemma {:induction false} ReplayIsApplyAll(s: FactoryState, es: seq<ActorEffect>)
    requires Legal(s, es)
    ensures Replay(s, es).token == ApplyAll(s.token, LedgerEffects(es))
    ensures Accepted(s.token, s.granularity, LedgerEffects(es))
    ensures Replay(s, es).granularity == s.granularity
    ensures forall e | e in LedgerEffects(es) :: !e.SetBalance?
    decreases |es|
  {
    if es != [] {
      ReplayIsApplyAll(ApplyActor(s, es[0]), es[1..]);
      if es[0].OnLedger? {
        assert LedgerEffects(es)[1..] == LedgerEffects(es[1..]);
      }
    }
  }

  lemma LegalKeepsOk(s: FactoryState, es: seq<ActorEffect>)
    requires StateOk(s) && Legal(s, es)
    ensures StateOk(Replay(s, es)) && Replay(s, es).granularity == s.granularity
  {
    ReplayIsApplyAll(s, es);
    AcceptedKeepsValid(s.token, s.granularity, LedgerEffects(es));
  }

  // ---------------------------------------------------------------- the minter

  /** Once there is no minter there never is one again, nothing is minted and supply never rises. */
  lemma {:induction false} NoMinterForever(s: FactoryState, es: seq<ActorEffect>)
    requires StateOk(s) && Legal(s, es) && s.minter.None?
    ensures Replay(s, es).minter.None? && MintedNothing(es)
    ensures Replay(s, es).token.supply <= s.token.supply
    decreases |es|
  {
    if es != [] {
      StepKeepsOk(s, es[0]);
      NoMinterForever(ApplyActor(s, es[0]), es[1..]);
    }
  }

  predicate MintedNothing(es: seq<ActorEffect>) {
    forall e | e in es :: !Mints(e)
  }

  /** After a surviving DisableMint nothing is minted and supply only falls, wherever in the nesting
      of messages the DisableMint was: in particular inside the hook of a mint. */
  lemma DisabledForever(s: FactoryState, es: seq<ActorEffect>, i: nat)
    requires StateOk(s) && Legal(s, es) && i < |es| && es[i].MintDisabled?
    ensures Replay(s, es).minter.None? && MintedNothing(es[i..])
    ensures Replay(s, es).token.supply <= Replay(s, es[..i]).token.supply
  {
    assert es == es[..i] + es[i..];
    ReplayAppend(s, es[..i], es[i..]);
    LegalKeepsOk(s, es[..i]);
    var before := Replay(s, es[..i]);
    StepKeepsOk(before, es[i]);
    NoMinterForever(ApplyActor(before, es[i]), es[i..][1..]);
    assert es[i..] == [es[i]] + es[i..][1..];
  }

  // ---------------------------------------------------------------- whole runs

  /** Everything at once, for any sequence of messages to a newly constructed token actor: the
      ledger is valid, supply, balances and allowances are accounted for, and a surviving DisableMint
      is final. */
  lemma WholeRun(env: Env, g: Granularity, minter: ActorID, table: AddressTable, calls: seq<External>,
                 a: ActorID, o: ActorID, p: ActorID)
    requires table.Consistent()
    ensures var s := Constructed(g, minter);
            var r := RunAll(env, World(Root(s), table), calls);
            var l0, l, es := s.token, r.world.root.content.token, LedgerEffects(r.effects);
            && WorldOk(r.world) && r.world.root.content.granularity == g
            && l.supply == TotalMinted(l0, es) - TotalBurnt(l0, es) == Sum(l.balances.content)
            && l.Bal(a) == Credited(l0, es, a) - Debited(l0, es, a)
            && Spent(es, o, p) + l.Allow(o, p) + Forfeited(l0, es, o, p) == Granted(l0, es, o, p)
            && ((exists e | e in r.effects :: e.MintDisabled?) ==> r.world.root.content.minter.None?)
            && (forall root | root in r.roots :: StateOk(root.content))
  {
    var s := Constructed(g, minter);
    var r := RunAll(env, World(Root(s), table), calls);
    var es := LedgerEffects(r.effects);
    RunAllIsSound(env, World(Root(s), table), calls);
    ReplayIsApplyAll(s, r.effects);
    SupplyHistory(s.token, es);
    BalanceHistory(s.token, g, es, a);
    AllowanceHistory(s.token, g, es, o, p);
    if e :| e in r.effects && e.MintDisabled? {
      var i :| 0 <= i < |r.effects| && r.effects[i] == e;
      DisabledForever(s, r.effects, i);
    }
  }

  /** Along the surviving effects of a run, from construction on, the checker accepts every state if and
      only if none of them grants an account an allowance from itself. */
  lemma CheckerAcceptsExactly(env: Env, g: Granularity, minter: ActorID, table: AddressTable,
                              calls: seq<External>)
    requires table.Consistent()
    ensures var s := Constructed(g, minter);
            var es := LedgerEffects(RunAll(env, World(Root(s), table), calls).effects);
            && RunAll(env, World(Root(s), table), calls).world.root.content.token == ApplyAll(s.token, es)
            && ((forall k | 0 <= k <= |es| ::
                   ApplyAll(s.token, es[..k]).Valid(g) && NoSelfAllowance(ApplyAll(s.token, es[..k])))
                <==> (forall e | e in es :: !SelfGrant(e)))
  {
    var s := Constructed(g, minter);
    var effects := RunAll(env, World(Root(s), table), calls).effects;
    var es := LedgerEffects(effects);
    RunAllIsSound(env, World(Root(s), table), calls);
    ReplayIsApplyAll(s, effects);
    SelfGrantsExactly(s.token, g, es);
    forall k | 0 <= k <= |es| ensures ApplyAll(s.token, es[..k]).Valid(g) {
      AcceptedPrefix(s.token, g, es, k);
      AcceptedKeepsValid(s.token, g, es[..k]);
    }
  }

  /** A single message that the checker rejects the outcome of: account 7 grants itself an allowance. */
  lemma SelfAllowanceStored(env: Env, table: AddressTable)
    requires table.Consistent()
    ensures var w := World(Root(Constructed(1, 0)), table);
            var l := RunAll(env, w, [ToToken(7, IncreaseMsg(ID(7), 5))]).world.root.content.token;
            l.Valid(1) && !NoSelfAllowance(l)
  {
    var w := World(Root(Constructed(1, 0)), table);
    var calls := [ToToken(7, IncreaseMsg(ID(7), 5))];
    RunAllIsSound(env, w, calls);
    assert calls[1..] == [];
    var l := RunAll(env, w, calls).world.root.content.token;
    assert l == Apply(EMPTY_LEDGER, Increase(7, 7, 5));
    SelfAllowanceExactly(EMPTY_LEDGER, 1, Increase(7, 7, 5));
  }
}
