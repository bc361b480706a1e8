/**
 What a list of ledger effects adds up to: supply, balances and allowances are accounted for to the
 last token, whatever the operations.  A run of library calls is such a list.
 */
module Accounting {
  import opened Basics
  import opened Addresses
  import opened Ledgers
  import opened TokenStates
  import opened Tokens

  function Excess(a: int, b: int): int {
    if a > b then a - b else 0
  }

  // ---------------------------------------------------------------- one effect

  /** Setting a balance mints what it adds, or burns what it takes. */
  function MintedBy(l: Ledger, e: Effect): int {
    match e
    case Mint(_, amount) => amount
    case SetBalance(owner, amount) => Excess(amount, l.Bal(owner))
    case _ => 0
  }

  function BurntBy(l: Ledger, e: Effect): int {
    match e
    case Burn(_, amount) => amount
    case BurnFrom(_, _, amount) => amount
    case SetBalance(owner, amount) => Excess(l.Bal(owner), amount)
    case _ => 0
  }

  function CreditedBy(l: Ledger, e: Effect, a: ActorID): int {
    match e
    case Mint(to, amount) => if to == a then amount else 0
    case Transfer(_, to, amount) => if to == a then amount else 0
    case TransferFrom(_, _, to, amount) => if to == a then amount else 0
    case SetBalance(owner, amount) => if owner == a then Excess(amount, l.Bal(a)) else 0
    case _ => 0
  }

  function DebitedBy(l: Ledger, e: Effect, a: ActorID): int {
    match e
    case Burn(owner, amount) => if owner == a then amount else 0
    case BurnFrom(_, owner, amount) => if owner == a then amount else 0
    case Transfer(from, _, amount) => if from == a then amount else 0
    case TransferFrom(_, from, _, amount) => if from == a then amount else 0
    case SetBalance(owner, amount) => if owner == a then Excess(l.Bal(a), amount) else 0
    case _ => 0
  }

  function SpentBy(e: Effect, o: ActorID, p: ActorID): int {
    match e
    case TransferFrom(operator, from, _, amount) => if from == o && operator == p then amount else 0
    case BurnFrom(operator, owner, amount) => if owner == o && operator == p then amount else 0
    case _ => 0
  }

  function GrantedBy(l: Ledger, e: Effect, o: ActorID, p: ActorID): int {
    match e
    case Increase(owner, operator, delta) => if owner == o && operator == p then delta else 0
    case SetAllowance(owner, operator, amount) =>
      if owner == o && operator == p then Excess(amount, l.Allow(o, p)) else 0
    case _ => 0
  }

  function ForfeitedBy(l: Ledger, e: Effect, o: ActorID, p: ActorID): int {
    match e
    case Decrease(owner, operator, delta) =>
      if owner != o || operator != p then 0
      else if delta < l.Allow(o, p) then delta else l.Allow(o, p)
    case SetAllowance(owner, operator, amount) =>
      if owner == o && operator == p then Excess(l.Allow(o, p), amount) else 0
    case _ => 0
  }

  // ---------------------------------------------------------------- lists of effects

  function ApplyAll(l: Ledger, es: seq<Effect>): Ledger
    decreases |es|
  {
    if es == [] then l else ApplyAll(Apply(l, es[0]), es[1..])
  }

  /** Each effect is admissible and not refused when its turn comes. */
  predicate Accepted(l: Ledger, g: nat, es: seq<Effect>)
    requires g >= 1
    decreases |es|
  {
    es == [] || (Admissible(g, es[0]) && Refusal(l, es[0]).None? && Accepted(Apply(l, es[0]), g, es[1..]))
  }

  function TotalMinted(l: Ledger, es: seq<Effect>): int
    decreases |es|
  {
    if es == [] then 0 else MintedBy(l, es[0]) + TotalMinted(Apply(l, es[0]), es[1..])
  }

  function TotalBurnt(l: Ledger, es: seq<Effect>): int
    decreases |es|
  {
    if es == [] then 0 else BurntBy(l, es[0]) + TotalBurnt(Apply(l, es[0]), es[1..])
  }

  function Credited(l: Ledger, es: seq<Effect>, a: ActorID): int
    decreases |es|
  {
    if es == [] then 0 else CreditedBy(l, es[0], a) + Credited(Apply(l, es[0]), es[1..], a)
  }

  function Debited(l: Ledger, es: seq<Effect>, a: ActorID): int
    decreases |es|
  {
    if es == [] then 0 else DebitedBy(l, es[0], a) + Debited(Apply(l, es[0]), es[1..], a)
  }

  function Spent(es: seq<Effect>, o: ActorID, p: ActorID): int {
    if es == [] then 0 else SpentBy(es[0], o, p) + Spent(es[1..], o, p)
  }

  function Granted(l: Ledger, es: seq<Effect>, o: ActorID, p: ActorID): int
    decreases |es|
  {
    if es == [] then 0 else GrantedBy(l, es[0], o, p) + Granted(Apply(l, es[0]), es[1..], o, p)
  }

  function Forfeited(l: Ledger, es: seq<Effect>, o: ActorID, p: ActorID): int
    decreases |es|
  {
    if es == [] then 0 else ForfeitedBy(l, es[0], o, p) + Forfeited(Apply(l, es[0]), es[1..], o, p)
  }

  // ---------------------------------------------------------------- one step

  lemma StepBalance(l: Ledger, g: nat, e: Effect, a: ActorID)
    requires l.Valid(g) && Admissible(g, e) && Refusal(l, e).None?
    ensures Apply(l, e).Bal(a) == l.Bal(a) + CreditedBy(l, e, a) - DebitedBy(l, e, a)
  {
    match e
    case Transfer(from, to, amount) => MoveKeeps(l, g, from, to, amount);
    case TransferFrom(operator, from, to, amount) =>
      SpendKeeps(l, g, operator, from, amount);
      MoveKeeps(Spend(l, operator, from, amount), g, from, to, amount);
    case _ =>
  }

  lemma StepAllowance(l: Ledger, g: nat, e: Effect, o: ActorID, p: ActorID)
    requires l.Valid(g) && Admissible(g, e) && Refusal(l, e).None?
    ensures Apply(l, e).Allow(o, p)
         == l.Allow(o, p) + GrantedBy(l, e, o, p) - SpentBy(e, o, p) - ForfeitedBy(l, e, o, p)
    ensures ForfeitedBy(l, e, o, p) >= 0
  {
    var l' := Apply(l, e);
    AllowIsNonNegative(l, o, p);
    match e
    case TransferFrom(q, x, _, amount) => OnePoint(l, l', x, q, l.Allow(x, q) - amount, o, p);
    case BurnFrom(q, x, amount) => OnePoint(l, l', x, q, l.Allow(x, q) - amount, o, p);
    case Increase(x, q, delta) =>
      AllowIsNonNegative(l, x, q);
      OnePoint(l, l', x, q, l.Allow(x, q) + delta, o, p);
    case Decrease(x, q, delta) =>
      OnePoint(l, l', x, q, if l.Allow(x, q) > delta then l.Allow(x, q) - delta else 0, o, p);
    case SetAllowance(x, q, amount) => OnePoint(l, l', x, q, amount, o, p);
    case _ =>
  }

  /** The allowances of `l'` are those of `l` with one of them set to `v`. */
  lemma OnePoint(l: Ledger, l': Ledger, x: ActorID, q: ActorID, v: int, o: ActorID, p: ActorID)
    requires l.Canonical() && v >= 0 && l'.allowances == l.WithAllow(x, q, v).allowances
    ensures l'.Allow(o, p) == if x == o && q == p then v else l.Allow(o, p)
  {
    WithAllowKeeps(l, x, q, v);
    assert l'.Allow(o, p) == l.WithAllow(x, q, v).Allow(o, p);
  }

  // ---------------------------------------------------------------- conservation

  lemma {:induction false} AcceptedKeepsValid(l: Ledger, g: nat, es: seq<Effect>)
    requires l.Valid(g) && Accepted(l, g, es)
    ensures ApplyAll(l, es).Valid(g)
    decreases |es|
  {
    if es != [] {
      ApplyKeepsValid(l, g, es[0]);
      AcceptedKeepsValid(Apply(l, es[0]), g, es[1..]);
    }
  }

  lemma {:induction false} AcceptedPrefix(l: Ledger, g: nat, es: seq<Effect>, k: nat)
    requires g >= 1 && Accepted(l, g, es) && k <= |es|
    ensures Accepted(l, g, es[..k])
    decreases |es|
  {
    if k > 0 {
      AcceptedPrefix(Apply(l, es[0]), g, es[1..], k - 1);
      assert es[..k][1..] == es[1..][..k - 1];
    }
  }

  /** Total supply is what was minted less what was burnt. */
  lemma {:induction false} SupplyHistory(l: Ledger, es: seq<Effect>)
    ensures ApplyAll(l, es).supply == l.supply + TotalMinted(l, es) - TotalBurnt(l, es)
    decreases |es|
  {
    if es != [] {
      SupplyHistory(Apply(l, es[0]), es[1..]);
    }
  }

  /** Each balance is what the account received less what it gave away or burnt. */
  lemma {:induction false} BalanceHistory(l: Ledger, g: nat, es: seq<Effect>, a: ActorID)
    requires l.Valid(g) && Accepted(l, g, es)
    ensures ApplyAll(l, es).Bal(a) == l.Bal(a) + Credited(l, es, a) - Debited(l, es, a)
    decreases |es|
  {
    if es != [] {
      ApplyKeepsValid(l, g, es[0]);
      StepBalance(l, g, es[0], a);
      BalanceHistory(Apply(l, es[0]), g, es[1..], a);
    }
  }

  /** What an operator spent, still may spend, and lost adds up to what it was granted; so it never
      spends more than it was granted. */
  lemma {:induction false} AllowanceHistory(l: Ledger, g: nat, es: seq<Effect>, o: ActorID, p: ActorID)
    requires l.Valid(g) && Accepted(l, g, es)
    ensures Spent(es, o, p) + ApplyAll(l, es).Allow(o, p) + Forfeited(l, es, o, p)
         == l.Allow(o, p) + Granted(l, es, o, p)
    ensures Spent(es, o, p) <= l.Allow(o, p) + Granted(l, es, o, p)
    ensures Forfeited(l, es, o, p) >= 0
    decreases |es|
  {
    AllowIsNonNegative(l, o, p);
    if es != [] {
      ApplyKeepsValid(l, g, es[0]);
      StepAllowance(l, g, es[0], o, p);
      AllowanceHistory(Apply(l, es[0]), g, es[1..], o, p);
    }
  }

  /** The checker accepts the ledger all along a list of effects exactly when none is a self-grant. */
  lemma {:induction false} SelfGrantsExactly(l: Ledger, g: nat, es: seq<Effect>)
    requires l.Valid(g) && NoSelfAllowance(l) && Accepted(l, g, es)
    ensures (forall k | 0 <= k <= |es| :: NoSelfAllowance(ApplyAll(l, es[..k])))
       <==> (forall e | e in es :: !SelfGrant(e))
    decreases |es|
  {
    if es != [] {
      var e, rest, l1 := es[0], es[1..], Apply(l, es[0]);
      assert es == [e] + rest;
      ApplyKeepsValid(l, g, e);
      SelfAllowanceExactly(l, g, e);
      forall k | 0 <= k <= |rest| ensures ApplyAll(l, es[..k + 1]) == ApplyAll(l1, rest[..k]) {
        assert es[..k + 1][1..] == rest[..k];
      }
      assert ApplyAll(l, es[..1]) == ApplyAll(l1, rest[..0]) == l1;
      if NoSelfAllowance(l1) {
        SelfGrantsExactly(l1, g, rest);
        forall k | 0 <= k <= |es| && forall j | 0 <= j <= |rest| :: NoSelfAllowance(ApplyAll(l1, rest[..j]))
          ensures NoSelfAllowance(ApplyAll(l, es[..k]))
        {
          if k > 0 {
            assert ApplyAll(l, es[..k]) == ApplyAll(l1, rest[..k - 1]);
          }
        }
        forall j | 0 <= j <= |rest| && forall k | 0 <= k <= |es| :: NoSelfAllowance(ApplyAll(l, es[..k]))
          ensures NoSelfAllowance(ApplyAll(l1, rest[..j]))
        {
          assert NoSelfAllowance(ApplyAll(l, es[..j + 1]));
        }
      }
    }
  }

  // ---------------------------------------------------------------- runs of library calls

  /** The effect of a call that succeeds, if it has one. */
  function EffectOf(t: AddressTable, g: nat, l: Ledger, op: Op): seq<Effect>
    requires g >= 1
  {
    match Plan(t, g, op).1
    case Ok(Some(e)) => if Refusal(l, e).None? then [e] else []
    case _ => []
  }

  /** Calls one after the other: table and ledger at the end, and the effects of those that succeeded. */
  function RunOps(t: AddressTable, g: nat, l: Ledger, ops: seq<Op>): (AddressTable, Ledger, seq<Effect>)
    requires g >= 1
    decreases |ops|
  {
    if ops == [] then (t, l, [])
    else
      var (t1, l1, _) := TokenStep(t, g, l, ops[0]);
      var (t2, l2, es) := RunOps(t1, g, l1, ops[1..]);
      (t2, l2, EffectOf(t, g, l, ops[0]) + es)
  }

  lemma {:induction false} RunOpsIsAccepted(t: AddressTable, g: nat, l: Ledger, ops: seq<Op>)
    requires l.Valid(g)
    ensures var (_, l', es) := RunOps(t, g, l, ops);
            l' == ApplyAll(l, es) && Accepted(l, g, es) && l'.Valid(g)
    decreases |ops|
  {
    if ops != [] {
      var (t1, l1, _) := TokenStep(t, g, l, ops[0]);
      var first, rest := EffectOf(t, g, l, ops[0]), RunOps(t1, g, l1, ops[1..]).2;
      TokenStepKeepsValid(t, g, l, ops[0]);
      PlanIsAdmissible(t, g, ops[0]);
      RunOpsIsAccepted(t1, g, l1, ops[1..]);
      if first != [] {
        assert (first + rest)[0] == first[0] && (first + rest)[1..] == rest;
      } else {
        assert first + rest == rest;
      }
    }
  }

  /** Any sequence of library calls on an empty ledger, burn_from, set_allowance and set_balance
      included, whichever of them fail: the ledger is valid and everything is accounted for. */
  lemma LibraryRun(t: AddressTable, g: nat, ops: seq<Op>, a: ActorID, o: ActorID, p: ActorID)
    requires g >= 1
    ensures var (_, l, es) := RunOps(t, g, EMPTY_LEDGER, ops);
            && l.Valid(g)
            && l.supply == TotalMinted(EMPTY_LEDGER, es) - TotalBurnt(EMPTY_LEDGER, es) == Sum(l.balances.content)
            && l.Bal(a) == Credited(EMPTY_LEDGER, es, a) - Debited(EMPTY_LEDGER, es, a)
            && Spent(es, o, p) + l.Allow(o, p) + Forfeited(EMPTY_LEDGER, es, o, p) == Granted(EMPTY_LEDGER, es, o, p)
  {
    var es := RunOps(t, g, EMPTY_LEDGER, ops).2;
    RunOpsIsAccepted(t, g, EMPTY_LEDGER, ops);
    SupplyHistory(EMPTY_LEDGER, es);
    BalanceHistory(EMPTY_LEDGER, g, es, a);
    AllowanceHistory(EMPTY_LEDGER, g, es, o, p);
  }
}
