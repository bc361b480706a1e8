/**
 The FRC-0053 ledger as a value: token data by id, an index of balances and account operators by
 owner, the next token id and the supply.  Counters are u64 and wrap silently, as the actors are
 built without overflow checks.  Each batch operation is the left-to-right fold that its loop makes.
 */
module NftLedgers {
  import opened Basics

  const TWO64: int := 0x1_0000_0000_0000_0000

  type U64 = x: int | 0 <= x < TWO64

  function Add64(a: int, b: int): U64 {
    (a + b) % TWO64
  }

  function Sub64(a: int, b: int): U64 {
    (a - b) % TWO64
  }

  type TokenID = nat

  datatype TokenData = TokenData(owner: ActorID, operators: set<ActorID>, metadata: string)

  datatype OwnerData = OwnerData(balance: U64, operators: set<ActorID>)
  {
    predicate Empty() {
      balance == 0 && operators == {}
    }
  }

  type TokenArray = map<TokenID, TokenData>
  type OwnerMap = map<ActorID, OwnerData>

  datatype Nft = Nft(tokenData: Cid<TokenArray>, ownerData: Cid<OwnerMap>, next: U64, supply: U64)
  {
    function Tokens(): TokenArray {
      tokenData.content
    }

    function Owners(): OwnerMap {
      ownerData.content
    }
  }

  const EMPTY_NFT := Nft(Cid(map[]), Cid(map[]), 0, 0)

  datatype NftError =
    | TokenNotFound(id: TokenID)
    | NotOwner(actor: ActorID, id: TokenID)
    | NotAuthorized(actor: ActorID, id: TokenID)
    | InvalidCursor
    | InvariantFailed

  /** A rule every token of a batch must meet, at the moment its turn comes. */
  type Check = (TokenData, TokenID) -> Option<NftError>

  function OwnsCheck(actor: ActorID): Check {
    (data: TokenData, id: TokenID) => if data.owner != actor then Some(NotOwner(actor, id)) else None
  }

  /** The token is `owner`'s, and `operator` is approved for the account or for the token. */
  function OperatorCheck(owner: ActorID, operator: ActorID, accountOperator: bool): Check {
    (data: TokenData, id: TokenID) =>
      if data.owner != owner then Some(NotOwner(owner, id))
      else if !accountOperator && operator !in data.operators then Some(NotAuthorized(operator, id))
      else None
  }

  // ---------------------------------------------------------------- the owner index

  function BalanceOf(m: OwnerMap, a: ActorID): int {
    if a in m then m[a].balance else 0
  }

  function OperatorsOf(m: OwnerMap, a: ActorID): set<ActorID> {
    if a in m then m[a].operators else {}
  }

  /** Stores an entry, or removes it when it says nothing. */
  function PutOwner(m: OwnerMap, a: ActorID, data: OwnerData): OwnerMap {
    if data.Empty() then m - {a} else m[a := data]
  }

  function Debit(m: OwnerMap, a: ActorID, n: int): OwnerMap
    requires a in m
  {
    PutOwner(m, a, m[a].(balance := Sub64(m[a].balance, n)))
  }

  function Credit(m: OwnerMap, a: ActorID, n: int): OwnerMap {
    m[a := OwnerData(Add64(BalanceOf(m, a), n), OperatorsOf(m, a))]
  }

  // ---------------------------------------------------------------- batches

  /** Token data and owner index, which a transfer batch changes together. */
  type Maps = (TokenArray, OwnerMap)

  function MintAll(tokens: TokenArray, next: U64, owner: ActorID, metadatas: seq<string>): (TokenArray, U64)
    decreases |metadatas|
  {
    if metadatas == [] then (tokens, next)
    else MintAll(tokens[next := TokenData(owner, {}, metadatas[0])], Add64(next, 1), owner, metadatas[1..])
  }

  function DeleteAll(tokens: TokenArray, ids: seq<TokenID>, check: Check): Result<TokenArray, NftError>
    decreases |ids|
  {
    if ids == [] then Ok(tokens)
    else if ids[0] !in tokens then Err(TokenNotFound(ids[0]))
    else
      match check(tokens[ids[0]], ids[0])
      case Some(e) => Err(e)
      case None => DeleteAll(tokens - {ids[0]}, ids[1..], check)
  }

  function WithOperator(data: TokenData, operator: ActorID, approve: bool): TokenData {
    data.(operators := if approve then data.operators + {operator} else data.operators - {operator})
  }

  function ApproveAll(tokens: TokenArray, ids: seq<TokenID>, operator: ActorID, approve: bool, check: Check)
    : Result<TokenArray, NftError>
    decreases |ids|
  {
    if ids == [] then Ok(tokens)
    else if ids[0] !in tokens then Err(TokenNotFound(ids[0]))
    else
      match check(tokens[ids[0]], ids[0])
      case Some(e) => Err(e)
      case None =>
        var data := WithOperator(tokens[ids[0]], operator, approve);
        ApproveAll(tokens[ids[0] := data], ids[1..], operator, approve, check)
  }

  function Moved(data: TokenData, receiver: ActorID): TokenData {
    data.(owner := receiver, operators := {})
  }

  function MakeTransfer(m: Maps, id: TokenID, receiver: ActorID, check: Check): Result<Maps, NftError> {
    var (tokens, owners) := m;
    if id !in tokens then Err(TokenNotFound(id))
    else
      match check(tokens[id], id)
      case Some(e) => Err(e)
      case None =>
        if tokens[id].owner !in owners then Err(InvariantFailed)
        else Ok((tokens[id := Moved(tokens[id], receiver)],
                 Credit(Debit(owners, tokens[id].owner, 1), receiver, 1)))
  }

  function TransferAll(m: Maps, ids: seq<TokenID>, receiver: ActorID, check: Check): Result<Maps, NftError>
    decreases |ids|
  {
    if ids == [] then Ok(m)
    else
      match MakeTransfer(m, ids[0], receiver, check)
      case Err(e) => Err(e)
      case Ok(m') => TransferAll(m', ids[1..], receiver, check)
  }

  // ---------------------------------------------------------------- operations of the state

  function MintTokens(n: Nft, owner: ActorID, metadatas: seq<string>): Nft {
    var (tokens, next) := MintAll(n.Tokens(), n.next, owner, metadatas);
    Nft(Cid(tokens), Cid(Credit(n.Owners(), owner, |metadatas|)), next, Add64(n.supply, |metadatas|))
  }

  /** With the owner's new balance. */
  function BurnTokens(n: Nft, owner: ActorID, ids: seq<TokenID>, check: Check): Result<(Nft, U64), NftError> {
    match DeleteAll(n.Tokens(), ids, check)
    case Err(e) => Err(e)
    case Ok(tokens) =>
      if owner !in n.Owners() then Err(InvariantFailed)
      else Ok((Nft(Cid(tokens), Cid(Debit(n.Owners(), owner, |ids|)), n.next, Sub64(n.supply, |ids|)),
               Sub64(n.Owners()[owner].balance, |ids|)))
  }

  function TransferTokens(n: Nft, ids: seq<TokenID>, receiver: ActorID, check: Check): Result<Nft, NftError> {
    match TransferAll((n.Tokens(), n.Owners()), ids, receiver, check)
    case Err(e) => Err(e)
    case Ok((tokens, owners)) => Ok(n.(tokenData := Cid(tokens), ownerData := Cid(owners)))
  }

  function ApproveTokens(n: Nft, operator: ActorID, ids: seq<TokenID>, approve: bool, check: Check)
    : Result<Nft, NftError>
  {
    match ApproveAll(n.Tokens(), ids, operator, approve, check)
    case Err(e) => Err(e)
    case Ok(tokens) => Ok(n.(tokenData := Cid(tokens)))
  }

  /** An account without an entry gets an empty one, and the operator is not added. */
  function ApproveForOwner(n: Nft, owner: ActorID, operator: ActorID): Nft {
    var m := n.Owners();
    var data := if owner in m then m[owner].(operators := m[owner].operators + {operator}) else OwnerData(0, {});
    n.(ownerData := Cid(m[owner := data]))
  }

  function RevokeForAll(n: Nft, owner: ActorID, operator: ActorID): Nft {
    var m := n.Owners();
    if owner !in m then n
    else n.(ownerData := Cid(PutOwner(m, owner, m[owner].(operators := m[owner].operators - {operator}))))
  }

  function IsAccountOperator(m: OwnerMap, owner: ActorID, operator: ActorID): Result<bool, NftError> {
    if owner in m then Ok(operator in m[owner].operators) else Err(InvariantFailed)
  }

  // ---------------------------------------------------------------- calls of the library

  /** A call between resolved actors. */
  datatype Call =
    | Mint(owner: ActorID, metadatas: seq<string>)
    | Burn(owner: ActorID, ids: seq<TokenID>)
    | BurnFrom(owner: ActorID, operator: ActorID, ids: seq<TokenID>)
    | Approve(owner: ActorID, operator: ActorID, ids: seq<TokenID>)
    | Revoke(owner: ActorID, operator: ActorID, ids: seq<TokenID>)
    | ApproveAccount(owner: ActorID, operator: ActorID)
    | RevokeAccount(owner: ActorID, operator: ActorID)
    | Transfer(owner: ActorID, recipient: ActorID, ids: seq<TokenID>)
    | TransferFrom(owner: ActorID, operator: ActorID, recipient: ActorID, ids: seq<TokenID>)

  function Step(n: Nft, c: Call): Result<Nft, NftError> {
    match c
    case Mint(owner, metadatas) => Ok(MintTokens(n, owner, metadatas))
    case Burn(owner, ids) => First(BurnTokens(n, owner, ids, OwnsCheck(owner)))
    case BurnFrom(owner, operator, ids) =>
      (match IsAccountOperator(n.Owners(), owner, operator)
       case Err(e) => Err(e)
       case Ok(account) => First(BurnTokens(n, owner, ids, OperatorCheck(owner, operator, account))))
    case Approve(owner, operator, ids) => ApproveTokens(n, operator, ids, true, OwnsCheck(owner))
    case Revoke(owner, operator, ids) => ApproveTokens(n, operator, ids, false, OwnsCheck(owner))
    case ApproveAccount(owner, operator) => Ok(ApproveForOwner(n, owner, operator))
    case RevokeAccount(owner, operator) => Ok(RevokeForAll(n, owner, operator))
    case Transfer(owner, recipient, ids) => TransferTokens(n, ids, recipient, OwnsCheck(owner))
    case TransferFrom(owner, operator, recipient, ids) =>
      match IsAccountOperator(n.Owners(), owner, operator)
      case Err(e) => Err(e)
      case Ok(account) => TransferTokens(n, ids, recipient, OperatorCheck(owner, operator, account))
  }

  function First<T, U, E>(r: Result<(T, U), E>): Result<T, E> {
    match r
    case Ok((t, _)) => Ok(t)
    case Err(e) => Err(e)
  }

  // ---------------------------------------------------------------- the index agrees with the tokens

  function Owned(tokens: TokenArray, a: ActorID): set<TokenID> {
    set id | id in tokens && tokens[id].owner == a
  }

  ghost predicate IndexAgrees(tokens: TokenArray, owners: OwnerMap) {
    forall a :: BalanceOf(owners, a) == |Owned(tokens, a)|
  }

  /** Every balance counts the tokens owned, and the supply counts the live tokens. */
  ghost predicate Agrees(n: Nft) {
    IndexAgrees(n.Tokens(), n.Owners()) && n.supply == |n.Tokens()|
  }

  lemma OwnedAtMostAll(tokens: TokenArray, a: ActorID)
    ensures |Owned(tokens, a)| <= |tokens|
  {
    SubsetCount(Owned(tokens, a), tokens.Keys);
  }

  lemma SetTokenCounts(tokens: TokenArray, id: TokenID, data: TokenData, a: ActorID)
    ensures |Owned(tokens[id := data], a)| ==
      |Owned(tokens, a)| - (if id in tokens && tokens[id].owner == a then 1 else 0)
                         + (if data.owner == a then 1 else 0)
    ensures |tokens[id := data]| == |tokens| + if id in tokens then 0 else 1
  {
    var rest := Owned(tokens, a) - {id};
    assert Owned(tokens[id := data], a) == if data.owner == a then rest + {id} else rest;
    assert id in tokens && tokens[id].owner == a ==> Owned(tokens, a) == rest + {id};
    assert tokens[id := data].Keys == tokens.Keys + {id};
  }

  lemma DeleteTokenCounts(tokens: TokenArray, id: TokenID, a: ActorID)
    requires id in tokens
    ensures |Owned(tokens - {id}, a)| == |Owned(tokens, a)| - if tokens[id].owner == a then 1 else 0
    ensures |tokens - {id}| == |tokens| - 1
  {
    var rest := Owned(tokens, a) - {id};
    assert Owned(tokens - {id}, a) == rest;
    assert tokens[id].owner == a ==> Owned(tokens, a) == rest + {id};
    assert (tokens - {id}).Keys == tokens.Keys - {id};
  }

  // ---------------------------------------------------------------- minting

  /** The id is one of the `count` next ones, which start over at 0 when the counter overflows. */
  predicate Writes(next: U64, count: nat, id: TokenID) {
    exists k | 0 <= k < count :: Add64(next, k) == id
  }

  /** No id that a batch of this size gets is live. */
  predicate FreshIds(tokens: TokenArray, next: U64, count: nat) {
    forall k | 0 <= k < count :: Add64(next, k) !in tokens
  }

  /** A batch of this size finds no live token in its place, and the supply has room for it. */
  predicate Fits(n: Nft, count: nat) {
    FreshIds(n.Tokens(), n.next, count) && n.supply + count < TWO64
  }

  lemma WritesCons(next: U64, count: nat, id: TokenID)
    requires count > 0
    ensures Writes(next, count, id) <==> id == next || Writes(Add64(next, 1), count - 1, id)
  {
    assert Add64(next, 0) == next;
    if id != next && Writes(next, count, id) {
      var k :| 0 <= k < count && Add64(next, k) == id;
      assert k > 0;
      assert Add64(Add64(next, 1), k - 1) == id;
    }
    if Writes(Add64(next, 1), count - 1, id) {
      var k :| 0 <= k < count - 1 && Add64(Add64(next, 1), k) == id;
      assert Add64(next, k + 1) == id;
    }
  }

  /** A batch leaves the counter where it should be, and the tokens it writes belong to the owner and
      are approved to nobody; all other tokens stay as they are.  This holds even where a batch writes
      over live tokens. */
  lemma {:induction false} MintAllExactly(tokens: TokenArray, next: U64, owner: ActorID, metadatas: seq<string>,
                                          id: TokenID)
    ensures var (tokens', next') := MintAll(tokens, next, owner, metadatas);
            && next' == Add64(next, |metadatas|)
            && (id in tokens' <==> id in tokens || Writes(next, |metadatas|, id))
            && (Writes(next, |metadatas|, id) ==>
                  tokens'[id].owner == owner && tokens'[id].operators == {} && tokens'[id].metadata in metadatas)
            && (id in tokens && !Writes(next, |metadatas|, id) ==> tokens'[id] == tokens[id])
    decreases |metadatas|
  {
    if metadatas != [] {
      WritesCons(next, |metadatas|, id);
      assert Add64(Add64(next, 1), |metadatas| - 1) == Add64(next, |metadatas|);
      MintAllExactly(tokens[next := TokenData(owner, {}, metadatas[0])], Add64(next, 1), owner, metadatas[1..], id);
    }
  }

  /** The k-th token of a batch is at the k-th next id and has the k-th metadata. */
  lemma {:induction false} MintAllInOrder(tokens: TokenArray, next: U64, owner: ActorID, metadatas: seq<string>,
                                          k: nat)
    requires k < |metadatas| <= TWO64
    ensures var tokens' := MintAll(tokens, next, owner, metadatas).0;
            Add64(next, k) in tokens' && tokens'[Add64(next, k)] == TokenData(owner, {}, metadatas[k])
    decreases |metadatas|
  {
    var tokens1, next1, rest := tokens[next := TokenData(owner, {}, metadatas[0])], Add64(next, 1), metadatas[1..];
    if k == 0 {
      MintAllExactly(tokens1, next1, owner, rest, next);
      assert Add64(next, 0) == next;
      forall j | 0 <= j < |rest| ensures Add64(next1, j) != next {
        AddTwice(next, j);
      }
    } else {
      MintAllInOrder(tokens1, next1, owner, rest, k - 1);
      AddTwice(next, k - 1);
    }
  }

  /** A mint keeps balances and supply in agreement with the tokens, counter overflow or not, if and
      only if no id of the batch is live and the supply has room for it. */
  lemma MintAgreesExactly(n: Nft, owner: ActorID, metadatas: seq<string>)
    requires Agrees(n)
    ensures Agrees(MintTokens(n, owner, metadatas)) <==> Fits(n, |metadatas|)
  {
    var tokens, n' := n.Tokens(), MintTokens(n, owner, metadatas);
    if n.supply + |metadatas| < TWO64 {
      MintAllCounts(tokens, n.next, owner, metadatas, owner);
      if FreshIds(tokens, n.next, |metadatas|) {
        MintAgrees(n, owner, metadatas);
      }
    } else {
      MintAllKeeps(tokens, n.next, owner, metadatas);
      if |metadatas| >= TWO64 {
        MintAllFills(tokens, n.next, owner, metadatas);
      }
    }
  }

  lemma MintAgrees(n: Nft, owner: ActorID, metadatas: seq<string>)
    requires Agrees(n) && Fits(n, |metadatas|)
    ensures var n' := MintTokens(n, owner, metadatas);
            && Agrees(n') && n'.supply == n.supply + |metadatas|
            && BalanceOf(n'.Owners(), owner) == BalanceOf(n.Owners(), owner) + |metadatas|
  {
    var n' := MintTokens(n, owner, metadatas);
    MintAllCounts(n.Tokens(), n.next, owner, metadatas, owner);
    CreditFits(n, owner, |metadatas|);
    forall a ensures BalanceOf(n'.Owners(), a) == |Owned(n'.Tokens(), a)| {
      MintAllCounts(n.Tokens(), n.next, owner, metadatas, a);
      assert BalanceOf(n.Owners(), a) == |Owned(n.Tokens(), a)|;
    }
  }

  /** Where the supply has room, so has the balance. */
  lemma CreditFits(n: Nft, owner: ActorID, count: nat)
    requires Agrees(n) && n.supply + count < TWO64
    ensures BalanceOf(Credit(n.Owners(), owner, count), owner) == BalanceOf(n.Owners(), owner) + count
  {
    OwnedAtMostAll(n.Tokens(), owner);
    assert BalanceOf(n.Owners(), owner) == |Owned(n.Tokens(), owner)|;
  }

  lemma {:induction false} MintAllCounts(tokens: TokenArray, next: U64, owner: ActorID, metadatas: seq<string>,
                                         a: ActorID)
    requires |metadatas| <= TWO64
    ensures var tokens' := MintAll(tokens, next, owner, metadatas).0;
            && |tokens'| <= |tokens| + |metadatas|
            && (|tokens'| == |tokens| + |metadatas| <==> FreshIds(tokens, next, |metadatas|))
            && (FreshIds(tokens, next, |metadatas|) ==>
                  |Owned(tokens', a)| == |Owned(tokens, a)| + if a == owner then |metadatas| else 0)
    decreases |metadatas|
  {
    if metadatas != [] {
      var data := TokenData(owner, {}, metadatas[0]);
      SetTokenCounts(tokens, next, data, a);
      FreshIdsCons(tokens, next, data, |metadatas|);
      MintAllCounts(tokens[next := data], Add64(next, 1), owner, metadatas[1..], a);
    }
  }

  lemma FreshIdsCons(tokens: TokenArray, next: U64, data: TokenData, count: nat)
    requires 0 < count <= TWO64
    ensures FreshIds(tokens, next, count)
       <==> next !in tokens && FreshIds(tokens[next := data], Add64(next, 1), count - 1)
  {
    var tokens1, next1 := tokens[next := data], Add64(next, 1);
    assert Add64(next, 0) == next;
    forall k | 0 <= k < count - 1
      ensures Add64(next1, k) == Add64(next, k + 1) && Add64(next1, k) != next
    {
      AddTwice(next, k);
    }
    if next !in tokens && FreshIds(tokens1, next1, count - 1) {
      forall k | 0 <= k < count ensures Add64(next, k) !in tokens {
        if k > 0 {
          assert Add64(next1, k - 1) !in tokens1;
        }
      }
    }
  }

  lemma AddTwice(next: U64, k: nat)
    requires k + 1 < TWO64
    ensures Add64(Add64(next, 1), k) == Add64(next, k + 1) != next
  {
  }

  lemma MintAllKeeps(tokens: TokenArray, next: U64, owner: ActorID, metadatas: seq<string>)
    ensures |tokens| <= |MintAll(tokens, next, owner, metadatas).0|
  {
    var tokens' := MintAll(tokens, next, owner, metadatas).0;
    forall id | id in tokens ensures id in tokens' {
      MintAllExactly(tokens, next, owner, metadatas, id);
    }
    SubsetCount(tokens.Keys, tokens'.Keys);
  }

  lemma MintAllFills(tokens: TokenArray, next: U64, owner: ActorID, metadatas: seq<string>)
    requires |metadatas| >= TWO64
    ensures |MintAll(tokens, next, owner, metadatas).0| >= TWO64
  {
    var keys := MintAll(tokens, next, owner, metadatas).0.Keys;
    forall x | 0 <= x < TWO64 ensures x in keys {
      assert Add64(next, Sub64(x, next)) == x;
      MintAllExactly(tokens, next, owner, metadatas, x);
    }
    CountUpTo(keys, TWO64);
  }

  lemma {:induction false} CountUpTo(s: set<TokenID>, bound: nat)
    requires forall x | 0 <= x < bound :: x in s
    ensures |s| >= bound
    decreases bound
  {
    if bound > 0 {
      CountUpTo(s - {bound - 1}, bound - 1);
    }
  }

  // ---------------------------------------------------------------- burning

  predicate Distinct(ids: seq<TokenID>) {
    forall i, j | 0 <= i < j < |ids| :: ids[i] != ids[j]
  }

  /** A deletion batch succeeds exactly when its ids are pairwise distinct, live, and each meets the
      check; then it removes those tokens and no other. */
  lemma {:induction false} DeleteAllExactly(tokens: TokenArray, ids: seq<TokenID>, check: Check)
    ensures DeleteAll(tokens, ids, check).Ok? <==>
      Distinct(ids) && forall id | id in ids :: id in tokens && check(tokens[id], id).None?
    ensures DeleteAll(tokens, ids, check).Ok? ==>
      DeleteAll(tokens, ids, check).value == tokens - set id | id in ids
    decreases |ids|
  {
    if ids != [] {
      var id, rest := ids[0], ids[1..];
      assert ids == [id] + rest;
      if id in tokens && check(tokens[id], id).None? {
        var tokens1 := tokens - {id};
        DeleteAllExactly(tokens1, rest, check);
        assert Distinct(ids) <==> Distinct(rest) && id !in rest by {
          if Distinct(rest) && id !in rest {
            forall i, j | 0 <= i < j < |ids| ensures ids[i] != ids[j] {
              assert ids[j] == rest[j - 1];
              assert i > 0 ==> ids[i] == rest[i - 1];
            }
          }
          if Distinct(ids) {
            forall k | 0 <= k < |rest| ensures rest[k] != id {
              assert ids[k + 1] == rest[k] && ids[0] != ids[k + 1];
            }
            forall i, j | 0 <= i < j < |rest| ensures rest[i] != rest[j] {
              assert ids[i + 1] == rest[i] && ids[j + 1] == rest[j];
            }
          }
        }
        assert tokens - (set x | x in ids) == tokens1 - set x | x in rest;
      }
    }
  }

  /** The check lets through only tokens of `owner` and raises no invariant failure of its own. */
  ghost predicate ImpliesOwner(check: Check, owner: ActorID) {
    forall data, id :: (check(data, id).None? ==> data.owner == owner) && check(data, id) != Some(InvariantFailed)
  }

  lemma {:induction false} DeleteAllCounts(tokens: TokenArray, ids: seq<TokenID>, check: Check,
                                           owner: ActorID, a: ActorID)
    requires ImpliesOwner(check, owner) && DeleteAll(tokens, ids, check).Ok?
    ensures var tokens' := DeleteAll(tokens, ids, check).value;
            && |tokens'| == |tokens| - |ids|
            && |Owned(tokens', a)| == |Owned(tokens, a)| - if a == owner then |ids| else 0
    decreases |ids|
  {
    if ids != [] {
      DeleteTokenCounts(tokens, ids[0], a);
      DeleteAllCounts(tokens - {ids[0]}, ids[1..], check, owner, a);
    }
  }

  lemma {:induction false} DeleteAllNeverFailsInvariant(tokens: TokenArray, ids: seq<TokenID>, check: Check,
                                                        owner: ActorID)
    requires ImpliesOwner(check, owner)
    ensures DeleteAll(tokens, ids, check) != Err(InvariantFailed)
    decreases |ids|
  {
    if ids != [] {
      DeleteAllNeverFailsInvariant(tokens - {ids[0]}, ids[1..], check, owner);
    }
  }

  /** Burning keeps the index in agreement, and neither subtraction wraps: the batch is no longer
      than the balance, nor that than the supply. */
  lemma BurnAgrees(n: Nft, owner: ActorID, ids: seq<TokenID>, check: Check)
    requires Agrees(n) && ImpliesOwner(check, owner)
    requires BurnTokens(n, owner, ids, check).Ok?
    ensures var (n', balance) := BurnTokens(n, owner, ids, check).value;
            && Agrees(n')
            && |ids| <= BalanceOf(n.Owners(), owner) <= n.supply
            && balance == BalanceOf(n.Owners(), owner) - |ids| == BalanceOf(n'.Owners(), owner)
            && n'.supply == n.supply - |ids|
  {
    var tokens, tokens' := n.Tokens(), DeleteAll(n.Tokens(), ids, check).value;
    DeletedFromOwner(tokens, ids, check, owner);
    OwnedAtMostAll(tokens, owner);
    assert BalanceOf(n.Owners(), owner) == |Owned(tokens, owner)|;
    DebitAgrees(tokens, tokens', n.Owners(), owner, |ids|);
  }

  lemma DeletedFromOwner(tokens: TokenArray, ids: seq<TokenID>, check: Check, owner: ActorID)
    requires ImpliesOwner(check, owner) && DeleteAll(tokens, ids, check).Ok?
    ensures var tokens' := DeleteAll(tokens, ids, check).value;
            && |tokens'| == |tokens| - |ids|
            && forall a :: |Owned(tokens', a)| == |Owned(tokens, a)| - if a == owner then |ids| else 0
  {
    var tokens' := DeleteAll(tokens, ids, check).value;
    DeleteAllExactly(tokens, ids, check);
    DeleteAllCounts(tokens, ids, check, owner, owner);
    forall a ensures |Owned(tokens', a)| == |Owned(tokens, a)| - if a == owner then |ids| else 0 {
      DeleteAllCounts(tokens, ids, check, owner, a);
    }
  }

  /** Debiting what the owner lost restores the agreement. */
  lemma DebitAgrees(tokens: TokenArray, tokens': TokenArray, owners: OwnerMap, owner: ActorID, k: nat)
    requires IndexAgrees(tokens, owners) && owner in owners
    requires forall a :: |Owned(tokens', a)| == |Owned(tokens, a)| - if a == owner then k else 0
    ensures IndexAgrees(tokens', Debit(owners, owner, k))
    ensures k <= owners[owner].balance && BalanceOf(Debit(owners, owner, k), owner) == owners[owner].balance - k
  {
    assert BalanceOf(owners, owner) == |Owned(tokens, owner)| == |Owned(tokens', owner)| + k;
    forall a ensures BalanceOf(Debit(owners, owner, k), a) == |Owned(tokens', a)| {
      assert BalanceOf(owners, a) == |Owned(tokens, a)|;
    }
  }

  /** "Owner of tokens not found" is reported only for an empty batch of an account without entry. */
  lemma BurnInvariantFailure(n: Nft, owner: ActorID, ids: seq<TokenID>, check: Check)
    requires Agrees(n) && ImpliesOwner(check, owner)
    ensures BurnTokens(n, owner, ids, check) == Err(InvariantFailed) <==> ids == [] && owner !in n.Owners()
  {
    DeleteAllNeverFailsInvariant(n.Tokens(), ids, check, owner);
    if DeleteAll(n.Tokens(), ids, check).Ok? && owner !in n.Owners() {
      DeleteAllCounts(n.Tokens(), ids, check, owner, owner);
      assert BalanceOf(n.Owners(), owner) == |Owned(n.Tokens(), owner)|;
    }
  }

  // ---------------------------------------------------------------- transferring

  /** The index agrees, and there are fewer than 2^64 tokens. */
  ghost predicate MapsAgree(m: Maps) {
    IndexAgrees(m.0, m.1) && |m.0| < TWO64
  }

  /** A transfer of one token succeeds exactly when it is live and meets the check; the debit does not
      wrap below zero, nor the credit above 2^64, also when the token goes to its own owner. */
  lemma MakeTransferExactly(m: Maps, id: TokenID, receiver: ActorID, check: Check)
    requires MapsAgree(m)
    ensures MakeTransfer(m, id, receiver, check).Ok? <==> id in m.0 && check(m.0[id], id).None?
    ensures MakeTransfer(m, id, receiver, check).Ok? ==> MapsAgree(MakeTransfer(m, id, receiver, check).value)
  {
    var (tokens, owners) := m;
    if id in tokens && check(tokens[id], id).None? {
      var from := tokens[id].owner;
      assert BalanceOf(owners, from) == |Owned(tokens, from)|;
      assert id in Owned(tokens, from);
      OwnedAtMostAll(tokens, from);
      var debited := Debit(owners, from, 1);
      assert BalanceOf(debited, from) == BalanceOf(owners, from) - 1;
      var tokens' := tokens[id := Moved(tokens[id], receiver)];
      SetTokenCounts(tokens, id, Moved(tokens[id], receiver), receiver);
      OwnedAtMostAll(tokens', receiver);
      var owners' := Credit(debited, receiver, 1);
      forall a ensures BalanceOf(owners', a) == |Owned(tokens', a)| {
        SetTokenCounts(tokens, id, Moved(tokens[id], receiver), a);
        assert BalanceOf(owners, a) == |Owned(tokens, a)|;
      }
    }
  }

  /** Whatever the index, a batch that succeeds moves the listed tokens, clears their approvals, and
      changes no other token and no account operator. */
  lemma {:induction false} TransferAllMoves(m: Maps, ids: seq<TokenID>, receiver: ActorID, check: Check)
    requires TransferAll(m, ids, receiver, check).Ok?
    ensures var (tokens', owners') := TransferAll(m, ids, receiver, check).value;
            && tokens'.Keys == m.0.Keys
            && (forall id | id in m.0 :: tokens'[id] == if id in ids then Moved(m.0[id], receiver) else m.0[id])
            && (forall a :: OperatorsOf(owners', a) == OperatorsOf(m.1, a))
    decreases |ids|
  {
    if ids != [] {
      assert ids == [ids[0]] + ids[1..];
      TransferAllMoves(MakeTransfer(m, ids[0], receiver, check).value, ids[1..], receiver, check);
    }
  }

  /** The data the check sees when the i-th id's turn comes: a repeated id has already moved. */
  function SeenAt(tokens: TokenArray, ids: seq<TokenID>, i: nat, receiver: ActorID): TokenData
    requires i < |ids| && ids[i] in tokens
  {
    if ids[i] in ids[..i] then Moved(tokens[ids[i]], receiver) else tokens[ids[i]]
  }

  predicate EachMoves(tokens: TokenArray, ids: seq<TokenID>, receiver: ActorID, check: Check) {
    forall i | 0 <= i < |ids| :: ids[i] in tokens && check(SeenAt(tokens, ids, i, receiver), ids[i]).None?
  }

  lemma EachMovesCons(tokens: TokenArray, ids: seq<TokenID>, receiver: ActorID, check: Check)
    requires ids != [] && ids[0] in tokens
    ensures EachMoves(tokens, ids, receiver, check) <==>
      check(tokens[ids[0]], ids[0]).None?
      && EachMoves(tokens[ids[0] := Moved(tokens[ids[0]], receiver)], ids[1..], receiver, check)
  {
    var tokens1, rest := tokens[ids[0] := Moved(tokens[ids[0]], receiver)], ids[1..];
    forall i | 0 < i < |ids|
      ensures ids[i] in tokens <==> rest[i - 1] in tokens1
      ensures ids[i] in tokens ==> SeenAt(tokens, ids, i, receiver) == SeenAt(tokens1, rest, i - 1, receiver)
    {
      assert ids[..i] == [ids[0]] + rest[..i - 1];
    }
    if EachMoves(tokens, ids, receiver, check) {
      assert check(SeenAt(tokens, ids, 0, receiver), ids[0]).None?;
      forall k | 0 <= k < |rest|
        ensures rest[k] in tokens1 && check(SeenAt(tokens1, rest, k, receiver), rest[k]).None?
      {
        assert ids[k + 1] in tokens && check(SeenAt(tokens, ids, k + 1, receiver), ids[k + 1]).None?;
      }
    }
  }

  /** A transfer batch, with repeated ids and transfers to oneself, succeeds exactly when every id is
      live and meets the check in its turn, and it keeps the index in agreement. */
  lemma {:induction false} TransferAllExactly(m: Maps, ids: seq<TokenID>, receiver: ActorID, check: Check)
    requires MapsAgree(m)
    ensures TransferAll(m, ids, receiver, check).Ok? <==> EachMoves(m.0, ids, receiver, check)
    ensures TransferAll(m, ids, receiver, check).Ok? ==> MapsAgree(TransferAll(m, ids, receiver, check).value)
    decreases |ids|
  {
    if ids != [] {
      MakeTransferExactly(m, ids[0], receiver, check);
      if ids[0] in m.0 {
        EachMovesCons(m.0, ids, receiver, check);
      }
      if MakeTransfer(m, ids[0], receiver, check).Ok? {
        TransferAllExactly(MakeTransfer(m, ids[0], receiver, check).value, ids[1..], receiver, check);
      }
    }
  }

  lemma TransferAgrees(n: Nft, ids: seq<TokenID>, receiver: ActorID, check: Check)
    requires Agrees(n) && TransferTokens(n, ids, receiver, check).Ok?
    ensures Agrees(TransferTokens(n, ids, receiver, check).value)
  {
    var m := (n.Tokens(), n.Owners());
    TransferAllExactly(m, ids, receiver, check);
    TransferAllMoves(m, ids, receiver, check);
    var tokens' := TransferAll(m, ids, receiver, check).value.0;
    assert |tokens'| == |tokens'.Keys| == |n.Tokens()|;
  }

  // ---------------------------------------------------------------- approving

  /** Approving or revoking changes the operators of the listed tokens and nothing else. */
  lemma {:induction false} ApproveAllExactly(tokens: TokenArray, ids: seq<TokenID>, operator: ActorID, approve: bool,
                                             check: Check)
    requires ApproveAll(tokens, ids, operator, approve, check).Ok?
    ensures var tokens' := ApproveAll(tokens, ids, operator, approve, check).value;
            && tokens'.Keys == tokens.Keys
            && forall id | id in tokens ::
                 tokens'[id] == if id in ids then WithOperator(tokens[id], operator, approve) else tokens[id]
    ensures forall id | id in ids :: id in tokens
    decreases |ids|
  {
    if ids != [] {
      var id := ids[0];
      assert ids == [id] + ids[1..];
      var data := WithOperator(tokens[id], operator, approve);
      assert WithOperator(data, operator, approve) == data;
      ApproveAllExactly(tokens[id := data], ids[1..], operator, approve, check);
    }
  }

  lemma ApproveAgrees(n: Nft, operator: ActorID, ids: seq<TokenID>, approve: bool, check: Check)
    requires Agrees(n) && ApproveTokens(n, operator, ids, approve, check).Ok?
    ensures Agrees(ApproveTokens(n, operator, ids, approve, check).value)
  {
    var n' := ApproveTokens(n, operator, ids, approve, check).value;
    ApproveAllExactly(n.Tokens(), ids, operator, approve, check);
    assert |n'.Tokens()| == |n'.Tokens().Keys| == |n.Tokens()|;
    forall a ensures Owned(n'.Tokens(), a) == Owned(n.Tokens(), a) {
    }
    forall a ensures BalanceOf(n'.Owners(), a) == |Owned(n'.Tokens(), a)| {
      assert BalanceOf(n.Owners(), a) == |Owned(n.Tokens(), a)|;
    }
  }

  // ---------------------------------------------------------------- every call

  /** The call does not mint over live tokens, nor past what the supply can count. */
  predicate Safe(n: Nft, c: Call) {
    c.Mint? ==> Fits(n, |c.metadatas|)
  }

  lemma ChecksImplyOwner(owner: ActorID, operator: ActorID, account: bool)
    ensures ImpliesOwner(OwnsCheck(owner), owner)
    ensures ImpliesOwner(OperatorCheck(owner, operator, account), owner)
  {
  }

  /** A successful call keeps the index in agreement with the tokens if and only if it is safe: every
      call but a mint always does. */
  lemma StepAgreesExactly(n: Nft, c: Call)
    requires Agrees(n) && Step(n, c).Ok?
    ensures Agrees(Step(n, c).value) <==> Safe(n, c)
  {
    match c
    case Mint(owner, metadatas) => MintAgreesExactly(n, owner, metadatas);
    case Burn(owner, ids) =>
      ChecksImplyOwner(owner, owner, false);
      BurnAgrees(n, owner, ids, OwnsCheck(owner));
    case BurnFrom(owner, operator, ids) =>
      var account := IsAccountOperator(n.Owners(), owner, operator).value;
      ChecksImplyOwner(owner, operator, account);
      BurnAgrees(n, owner, ids, OperatorCheck(owner, operator, account));
    case Approve(owner, operator, ids) => ApproveAgrees(n, operator, ids, true, OwnsCheck(owner));
    case Revoke(owner, operator, ids) => ApproveAgrees(n, operator, ids, false, OwnsCheck(owner));
    case ApproveAccount(owner, operator) => SameBalances(n, ApproveForOwner(n, owner, operator));
    case RevokeAccount(owner, operator) => SameBalances(n, RevokeForAll(n, owner, operator));
    case Transfer(owner, recipient, ids) => TransferAgrees(n, ids, recipient, OwnsCheck(owner));
    case TransferFrom(owner, operator, recipient, ids) =>
      var account := IsAccountOperator(n.Owners(), owner, operator).value;
      TransferAgrees(n, ids, recipient, OperatorCheck(owner, operator, account));
  }

  lemma SameBalances(n: Nft, n': Nft)
    requires Agrees(n) && n'.tokenData == n.tokenData && n'.supply == n.supply
    requires forall a :: BalanceOf(n'.Owners(), a) == BalanceOf(n.Owners(), a)
    ensures Agrees(n')
  {
  }

  // ---------------------------------------------------------------- entries without content

  predicate NoEmptyEntry(m: OwnerMap) {
    forall a | a in m :: !m[a].Empty()
  }

  /** Two calls, and only they, store an owner entry that says nothing: an account approval by an account
      without entry, and a mint to one without operators that leaves its balance at zero, which short
      of an overflow is the empty mint. */
  lemma NoEmptyEntryExactly(n: Nft, c: Call)
    requires Agrees(n) && NoEmptyEntry(n.Owners()) && Step(n, c).Ok?
    ensures NoEmptyEntry(Step(n, c).value.Owners()) <==>
      match c
      case ApproveAccount(owner, _) => owner in n.Owners()
      case Mint(owner, metadatas) =>
        OperatorsOf(n.Owners(), owner) != {} || Add64(BalanceOf(n.Owners(), owner), |metadatas|) != 0
      case _ => true
    ensures c.Mint? && Safe(n, c) ==>
      (NoEmptyEntry(Step(n, c).value.Owners()) <==> c.owner in n.Owners() || c.metadatas != [])
  {
    var n' := Step(n, c).value;
    match c
    case Mint(owner, metadatas) =>
      assert owner in n'.Owners();
      if Safe(n, c) {
        CreditFits(n, owner, |metadatas|);
      }
    case ApproveAccount(owner, operator) => assert owner in n'.Owners();
    case Transfer(owner, recipient, ids) =>
      TransferNoEmpty((n.Tokens(), n.Owners()), ids, recipient, OwnsCheck(owner));
    case TransferFrom(owner, operator, recipient, ids) =>
      var account := IsAccountOperator(n.Owners(), owner, operator).value;
      TransferNoEmpty((n.Tokens(), n.Owners()), ids, recipient, OperatorCheck(owner, operator, account));
    case _ =>
  }

  lemma {:induction false} TransferNoEmpty(m: Maps, ids: seq<TokenID>, receiver: ActorID, check: Check)
    requires MapsAgree(m) && NoEmptyEntry(m.1)
    requires TransferAll(m, ids, receiver, check).Ok?
    ensures NoEmptyEntry(TransferAll(m, ids, receiver, check).value.1)
    decreases |ids|
  {
    if ids != [] {
      MakeTransferExactly(m, ids[0], receiver, check);
      var m' := MakeTransfer(m, ids[0], receiver, check).value;
      assert BalanceOf(m'.1, receiver) == |Owned(m'.0, receiver)|;
      assert ids[0] in Owned(m'.0, receiver);
      assert NoEmptyEntry(m'.1);
      TransferNoEmpty(m', ids[1..], receiver, check);
    }
  }

  /** An account approval takes effect if and only if the account already has an entry. */
  lemma ApproveAccountExactly(n: Nft, owner: ActorID, operator: ActorID)
    ensures operator in OperatorsOf(ApproveForOwner(n, owner, operator).Owners(), owner) <==> owner in n.Owners()
  {
  }
}
