/**
 The FRC-0046 ledger as a value, and the effect of each token operation on it.

 Balances are a map that never stores zero; allowances are a map from owner to the CID of that
 owner's own map, in which neither a zero allowance nor an empty inner map is stored.  Effects are
 written against the total functions `Bal` and `Allow`; the step-by-step code is in TokenState.
 */
module Ledgers {
  import opened Basics
  import opened Addresses

  type Balances = map<ActorID, int>
  type OwnerAllowances = map<ActorID, int>
  type Allowances = map<ActorID, Cid<OwnerAllowances>>

  /** The serialised token state: two links and the supply. */
  datatype Ledger = Ledger(supply: int, balances: Cid<Balances>, allowances: Cid<Allowances>)
  {
    function Bal(a: ActorID): int {
      Get(balances.content, a)
    }

    function Allow(owner: ActorID, operator: ActorID): int {
      AllowanceIn(allowances.content, owner, operator)
    }

    function WithBal(a: ActorID, v: int): Ledger {
      this.(balances := Cid(Put(balances.content, a, v)))
    }

    function WithAllow(owner: ActorID, operator: ActorID, v: int): Ledger {
      this.(allowances := Cid(PutAllowance(allowances.content, owner, operator, v)))
    }

    function WithSupply(v: int): Ledger {
      this.(supply := v)
    }

    ghost predicate Canonical() {
      AllPositive(balances.content) && CanonicalAllowances(allowances.content)
    }

    /** What every committed token state satisfies. */
    ghost predicate Valid(granularity: nat) {
      && granularity >= 1
      && Canonical()
      && supply == Sum(balances.content)
      && MultiplesOf(balances.content, granularity)
    }
  }

  const EMPTY_LEDGER := Ledger(0, Cid(map[]), Cid(map[]))

  function Inner(m: Allowances, owner: ActorID): OwnerAllowances {
    if owner in m then m[owner].content else map[]
  }

  function AllowanceIn(m: Allowances, owner: ActorID, operator: ActorID): int {
    Get(Inner(m, owner), operator)
  }

  /** Relinks the owner's map, dropping the link when the map is empty. */
  function PutInner(m: Allowances, owner: ActorID, inner: OwnerAllowances): Allowances {
    if inner == map[] then m - {owner} else m[owner := Cid(inner)]
  }

  function PutAllowance(m: Allowances, owner: ActorID, operator: ActorID, v: int): Allowances {
    PutInner(m, owner, Put(Inner(m, owner), operator, v))
  }

  ghost predicate CanonicalAllowances(m: Allowances) {
    forall o | o in m :: m[o].content != map[] && AllPositive(m[o].content)
  }

  ghost predicate MultiplesOf(m: Balances, g: nat)
    requires g >= 1
  {
    forall a | a in m :: m[a] % g == 0
  }

  // ---------------------------------------------------------------- two-level allowances

  /** `PutAllowance` updates one point of the total function and keeps the nested map canonical. */
  lemma PutAllowanceUpdates(m: Allowances, o: ActorID, p: ActorID, v: int)
    requires CanonicalAllowances(m) && v >= 0
    ensures CanonicalAllowances(PutAllowance(m, o, p, v))
    ensures forall o', p' :: AllowanceIn(PutAllowance(m, o, p, v), o', p')
                          == if o' == o && p' == p then v else AllowanceIn(m, o', p')
  {
  }

  /** Canonical nested maps that agree as functions are the same map, hence have the same CID. */
  lemma AllowancesExtensional(m: Allowances, n: Allowances)
    requires CanonicalAllowances(m) && CanonicalAllowances(n)
    requires forall o, p :: AllowanceIn(m, o, p) == AllowanceIn(n, o, p)
    ensures m == n
  {
    forall o ensures Inner(m, o) == Inner(n, o) {
      forall p ensures Get(Inner(m, o), p) == Get(Inner(n, o), p) {
        assert AllowanceIn(m, o, p) == AllowanceIn(n, o, p);
      }
      GetExtensional(Inner(m, o), Inner(n, o));
    }
    forall o ensures o in m <==> o in n {
      assert Inner(m, o) == Inner(n, o);
    }
    forall o | o in m ensures m[o] == n[o] {
      assert Inner(m, o) == Inner(n, o);
    }
  }

  /** Two ledgers that no query can tell apart are one ledger, down to the stored maps. */
  lemma LedgerExtensional(l: Ledger, k: Ledger)
    requires l.Canonical() && k.Canonical() && l.supply == k.supply
    requires forall a :: l.Bal(a) == k.Bal(a)
    requires forall o, p :: l.Allow(o, p) == k.Allow(o, p)
    ensures l == k
  {
    forall a ensures Get(l.balances.content, a) == Get(k.balances.content, a) {
      assert l.Bal(a) == k.Bal(a);
    }
    GetExtensional(l.balances.content, k.balances.content);
    forall o, p ensures AllowanceIn(l.allowances.content, o, p) == AllowanceIn(k.allowances.content, o, p) {
      assert l.Allow(o, p) == k.Allow(o, p);
    }
    AllowancesExtensional(l.allowances.content, k.allowances.content);
  }

  /** Granting and taking back the same amount restores the identical ledger. */
  lemma IncreaseDecreaseRestores(l: Ledger, o: ActorID, p: ActorID, delta: nat)
    requires l.Canonical()
    ensures Apply(Apply(l, Increase(o, p, delta)), Decrease(o, p, delta)) == l
  {
    var m, v := l.allowances.content, l.Allow(o, p);
    AllowIsNonNegative(l, o, p);
    PutPut(Inner(m, o), p, v + delta, v);
    assert PutAllowance(PutAllowance(m, o, p, v + delta), o, p, v) == PutAllowance(m, o, p, v);
    PutAllowanceUpdates(m, o, p, v + delta);
    RewriteAllowance(l, o, p);
  }

  lemma RewriteAllowance(l: Ledger, o: ActorID, p: ActorID)
    requires l.Canonical()
    ensures l.WithAllow(o, p, l.Allow(o, p)) == l
  {
    var m := l.allowances.content;
    PutGet(Inner(m, o), p);
    assert PutAllowance(m, o, p, l.Allow(o, p)) == PutInner(m, o, Inner(m, o)) == m;
  }

  lemma AllowIsNonNegative(l: Ledger, o: ActorID, p: ActorID)
    requires l.Canonical()
    ensures l.Allow(o, p) >= 0
  {
  }

  // ---------------------------------------------------------------- effects

  datatype StateError =
    | InsufficientBalance(account: ActorID, balance: int, delta: int)
    | InsufficientAllowance(owner: Address, operator: Address, allowance: int, delta: int)
    | NegativeTotalSupply(supply: int, delta: int)
    | NegativeAllowance(amount: int, grantor: ActorID, grantee: ActorID)
    | NegativeBalance(amount: int, account: ActorID)

  /** One indivisible change of the ledger, between resolved actors. */
  datatype Effect =
    | Mint(to: ActorID, amount: int)
    | Transfer(from: ActorID, to: ActorID, amount: int)
    | TransferFrom(operator: ActorID, from: ActorID, to: ActorID, amount: int)
    | Burn(owner: ActorID, amount: int)
    | BurnFrom(operator: ActorID, owner: ActorID, amount: int)
    | Increase(owner: ActorID, operator: ActorID, delta: int)
    | Decrease(owner: ActorID, operator: ActorID, delta: int)
    | SetAllowance(owner: ActorID, operator: ActorID, amount: int)
    | SetBalance(owner: ActorID, amount: int)

  /** Amounts that move tokens are multiples of the granularity; allowances need not be. */
  predicate Admissible(g: nat, e: Effect)
    requires g >= 1
  {
    match e
    case Mint(_, amount) => amount >= 0 && amount % g == 0
    case Transfer(_, _, amount) => amount >= 0 && amount % g == 0
    case TransferFrom(_, _, _, amount) => amount >= 0 && amount % g == 0
    case Burn(_, amount) => amount >= 0 && amount % g == 0
    case BurnFrom(_, _, amount) => amount >= 0 && amount % g == 0
    case SetBalance(_, amount) => amount >= 0 && amount % g == 0
    case Increase(_, _, delta) => delta >= 0
    case Decrease(_, _, delta) => delta >= 0
    case SetAllowance(_, _, amount) => amount >= 0
  }

  /** Why an effect is refused, if it is. */
  function Refusal(l: Ledger, e: Effect): Option<StateError> {
    match e
    case Transfer(from, _, amount) => CannotPay(l, from, amount)
    case Burn(owner, amount) => CannotPay(l, owner, amount)
    case TransferFrom(operator, from, _, amount) =>
      (match CannotSpend(l, operator, from, amount)
       case Some(error) => Some(error)
       case None => CannotPay(l, from, amount))
    case BurnFrom(operator, owner, amount) =>
      (match CannotSpend(l, operator, owner, amount)
       case Some(error) => Some(error)
       case None => CannotPay(l, owner, amount))
    case _ => None
  }

  function CannotPay(l: Ledger, from: ActorID, amount: int): Option<StateError> {
    if l.Bal(from) < amount then Some(InsufficientBalance(from, l.Bal(from), -amount)) else None
  }

  /** An operator without any allowance is refused even a zero amount. */
  function CannotSpend(l: Ledger, operator: ActorID, owner: ActorID, amount: int): Option<StateError> {
    var current := l.Allow(owner, operator);
    if (current == 0 && operator != owner) || current < amount
    then Some(InsufficientAllowance(ID(owner), ID(operator), current, amount))
    else None
  }

  function Move(l: Ledger, from: ActorID, to: ActorID, amount: int): Ledger {
    var debited := l.WithBal(from, l.Bal(from) - amount);
    debited.WithBal(to, debited.Bal(to) + amount)
  }

  function Spend(l: Ledger, operator: ActorID, owner: ActorID, amount: int): Ledger {
    l.WithAllow(owner, operator, l.Allow(owner, operator) - amount)
  }

  function Destroy(l: Ledger, owner: ActorID, amount: int): Ledger {
    l.WithBal(owner, l.Bal(owner) - amount).WithSupply(l.supply - amount)
  }

  function Apply(l: Ledger, e: Effect): Ledger {
    match e
    case Mint(to, amount) => l.WithBal(to, l.Bal(to) + amount).WithSupply(l.supply + amount)
    case Transfer(from, to, amount) => Move(l, from, to, amount)
    case TransferFrom(operator, from, to, amount) => Move(Spend(l, operator, from, amount), from, to, amount)
    case Burn(owner, amount) => Destroy(l, owner, amount)
    case BurnFrom(operator, owner, amount) => Destroy(Spend(l, operator, owner, amount), owner, amount)
    case Increase(owner, operator, delta) => l.WithAllow(owner, operator, l.Allow(owner, operator) + delta)
    case Decrease(owner, operator, delta) =>
      l.WithAllow(owner, operator, if l.Allow(owner, operator) > delta then l.Allow(owner, operator) - delta else 0)
    case SetAllowance(owner, operator, amount) => l.WithAllow(owner, operator, amount)
    case SetBalance(owner, amount) => l.WithBal(owner, amount).WithSupply(l.supply - l.Bal(owner) + amount)
  }

  // ---------------------------------------------------------------- what every effect keeps

  lemma WithBalKeeps(l: Ledger, g: nat, a: ActorID, v: int)
    requires g >= 1 && l.Canonical() && MultiplesOf(l.balances.content, g)
    requires v >= 0 && v % g == 0
    ensures l.WithBal(a, v).Canonical() && MultiplesOf(l.WithBal(a, v).balances.content, g)
    ensures Sum(l.WithBal(a, v).balances.content) == Sum(l.balances.content) - l.Bal(a) + v
    ensures forall b :: l.WithBal(a, v).Bal(b) == if b == a then v else l.Bal(b)
  {
    SumPut(l.balances.content, a, v);
  }

  lemma WithAllowKeeps(l: Ledger, o: ActorID, p: ActorID, v: int)
    requires l.Canonical() && v >= 0
    ensures l.WithAllow(o, p, v).Canonical()
    ensures forall o', p' :: l.WithAllow(o, p, v).Allow(o', p') == if o' == o && p' == p then v else l.Allow(o', p')
  {
    PutAllowanceUpdates(l.allowances.content, o, p, v);
  }

  lemma BalanceFacts(l: Ledger, g: nat, a: ActorID)
    requires l.Valid(g)
    ensures 0 <= l.Bal(a) <= l.supply && l.Bal(a) % g == 0
  {
    SumBounds(l.balances.content, a);
  }

  lemma MultiplesAdd(x: int, y: int, g: nat)
    requires g >= 1 && x % g == 0 && y % g == 0
    ensures (x + y) % g == 0 && (x - y) % g == 0
  {
    var i, j := x / g, y / g;
    MultipleIsZeroMod(x + y, i + j, g);
    MultipleIsZeroMod(x - y, i - j, g);
  }

  lemma MultipleIsZeroMod(x: int, k: int, g: nat)
    requires g >= 1 && x == g * k
    ensures x % g == 0
  {
    NoSmallMultiple(k - x / g, x % g, g);
  }

  lemma NoSmallMultiple(d: int, r: int, g: nat)
    requires 0 <= r < g && r == g * d
    ensures r == 0
  {
  }

  lemma MoveKeeps(l: Ledger, g: nat, from: ActorID, to: ActorID, amount: int)
    requires l.Valid(g) && 0 <= amount <= l.Bal(from) && amount % g == 0
    ensures Move(l, from, to, amount).Valid(g)
    ensures forall a :: Move(l, from, to, amount).Bal(a)
                     == l.Bal(a) - (if a == from then amount else 0) + (if a == to then amount else 0)
  {
    var rest := l.Bal(from) - amount;
    BalanceFacts(l, g, from);
    MultiplesAdd(l.Bal(from), amount, g);
    WithBalKeeps(l, g, from, rest);
    var debited := l.WithBal(from, rest);
    BalanceFacts(l, g, to);
    MultiplesAdd(debited.Bal(to), amount, g);
    WithBalKeeps(debited, g, to, debited.Bal(to) + amount);
  }

  lemma SpendKeeps(l: Ledger, g: nat, operator: ActorID, owner: ActorID, amount: int)
    requires l.Valid(g) && 0 <= amount <= l.Allow(owner, operator)
    ensures Spend(l, operator, owner, amount).Valid(g)
  {
    WithAllowKeeps(l, owner, operator, l.Allow(owner, operator) - amount);
  }

  lemma DestroyKeeps(l: Ledger, g: nat, owner: ActorID, amount: int)
    requires l.Valid(g) && 0 <= amount <= l.Bal(owner) && amount % g == 0
    ensures Destroy(l, owner, amount).Valid(g)
  {
    BalanceFacts(l, g, owner);
    MultiplesAdd(l.Bal(owner), amount, g);
    WithBalKeeps(l, g, owner, l.Bal(owner) - amount);
  }

  /** Every admissible effect that is not refused keeps the ledger valid: the supply is the sum of
      the balances, nothing is stored that should not be, all balances are multiples of `g`. */
  lemma ApplyKeepsValid(l: Ledger, g: nat, e: Effect)
    requires l.Valid(g) && Admissible(g, e) && Refusal(l, e).None?
    ensures Apply(l, e).Valid(g)
  {
    match e
    case Mint(to, amount) =>
      CreateKeeps(l, g, to, amount);
    case Transfer(from, to, amount) =>
      MoveKeeps(l, g, from, to, amount);
    case TransferFrom(operator, from, to, amount) =>
      SpendKeeps(l, g, operator, from, amount);
      MoveKeeps(Spend(l, operator, from, amount), g, from, to, amount);
    case Burn(owner, amount) =>
      DestroyKeeps(l, g, owner, amount);
    case BurnFrom(operator, owner, amount) =>
      SpendKeeps(l, g, operator, owner, amount);
      DestroyKeeps(Spend(l, operator, owner, amount), g, owner, amount);
    case SetBalance(owner, amount) =>
      WithBalKeeps(l, g, owner, amount);
    case _ =>
      AllowanceKeeps(l, g, e);
  }

  lemma CreateKeeps(l: Ledger, g: nat, to: ActorID, amount: int)
    requires l.Valid(g) && 0 <= amount && amount % g == 0
    ensures Apply(l, Mint(to, amount)).Valid(g)
  {
    BalanceFacts(l, g, to);
    MultiplesAdd(l.Bal(to), amount, g);
    WithBalKeeps(l, g, to, l.Bal(to) + amount);
  }

  lemma AllowanceKeeps(l: Ledger, g: nat, e: Effect)
    requires l.Valid(g) && Admissible(g, e) && (e.Increase? || e.Decrease? || e.SetAllowance?)
    ensures Apply(l, e).Valid(g)
  {
    var (o, p) := (e.owner, e.operator);
    AllowIsNonNegative(l, o, p);
    var v := match e
      case Increase(_, _, delta) => l.Allow(o, p) + delta
      case Decrease(_, _, delta) => if l.Allow(o, p) > delta then l.Allow(o, p) - delta else 0
      case SetAllowance(_, _, amount) => amount;
    assert Apply(l, e) == l.WithAllow(o, p, v);
    WithAllowKeeps(l, o, p, v);
  }

  /** The supply itself is a multiple of the granularity. */
  lemma SupplyIsMultiple(l: Ledger, g: nat)
    requires l.Valid(g)
    ensures l.supply >= 0 && l.supply % g == 0
  {
    SumNonNegative(l.balances.content);
    var k := SumQuotient(l.balances.content, g);
    MultipleIsZeroMod(l.supply, k, g);
  }

  lemma {:induction false} SumQuotient(m: Balances, g: nat) returns (q: int)
    requires g >= 1 && MultiplesOf(m, g)
    ensures Sum(m) == g * q
    decreases |m|
  {
    if m == map[] {
      q := 0;
    } else {
      var k :| k in m;
      SumRemove(m, k);
      var rest := SumQuotient(m - {k}, g);
      q := AddQuotient(m[k], rest, g);
    }
  }

  lemma AddQuotient(x: int, rest: int, g: nat) returns (q: int)
    requires g >= 1 && x % g == 0
    ensures g * q == x + g * rest
  {
    q := x / g + rest;
  }
}
