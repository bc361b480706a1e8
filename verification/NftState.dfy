/**
 The NFT state object: the loops of frc53_nft/src/state.rs over token ids, each proved to compute the
 fold that NftLedgers describes, and the invariant checker.
 */
module NftStates {
  import opened Basics
  import opened NftLedgers
  import opened NftPages
  import opened NftOperators

  datatype InvariantError =
    | TotalSupplyMismatch(supply: int, count: int)
    | TokenBalanceMismatch(count: int, balance: int)
    | ExplicitEmptyOwner(owner: ActorID)

  class NFTState {
    var tokenData: Cid<TokenArray>
    var ownerData: Cid<OwnerMap>
    var nextToken: U64
    var totalSupply: U64

    constructor Load(n: Nft)
      ensures Value() == n
    {
      tokenData, ownerData, nextToken, totalSupply := n.tokenData, n.ownerData, n.next, n.supply;
    }

    function Value(): Nft
      reads this
    {
      Nft(tokenData, ownerData, nextToken, totalSupply)
    }

    method Replace(n: Nft)
      modifies this
      ensures Value() == n
    {
      tokenData, ownerData, nextToken, totalSupply := n.tokenData, n.ownerData, n.next, n.supply;
    }

    /** Returns the ids of the new tokens. */
    method MintTokens(initialOwner: ActorID, metadatas: seq<string>) returns (ids: seq<TokenID>)
      modifies this
      ensures Value() == NftLedgers.MintTokens(old(Value()), initialOwner, metadatas)
      ensures ids == seq(if old(nextToken) <= nextToken then nextToken - old(nextToken) else 0,
                         (i: nat) => old(nextToken) + i)
    {
      var firstTokenId := nextToken;
      var tokenArray: TokenArray, ownerMap: OwnerMap := tokenData.content, ownerData.content;
      var newOwnerData :=
        if initialOwner in ownerMap then
          var existing := ownerMap[initialOwner];
          existing.(balance := Add64(existing.balance, |metadatas|))
        else OwnerData(Add64(0, |metadatas|), {});
      ownerMap := ownerMap[initialOwner := newOwnerData];
      for i := 0 to |metadatas|
        invariant tokenData == old(tokenData) && ownerData == old(ownerData) && totalSupply == old(totalSupply)
        invariant MintAll(tokenArray, nextToken, initialOwner, metadatas[i..])
               == MintAll(old(tokenData.content), old(nextToken), initialOwner, metadatas)
      {
        var tokenId := nextToken;
        tokenArray := tokenArray[tokenId := TokenData(initialOwner, {}, metadatas[i])];
        nextToken := Add64(nextToken, 1);
        assert metadatas[i..][1..] == metadatas[i + 1..];
      }
      totalSupply := Add64(totalSupply, |metadatas|);
      tokenData := Cid(tokenArray);
      ownerData := Cid(ownerMap);
      ids := seq(if firstTokenId <= nextToken then nextToken - firstTokenId else 0, (i: nat) => firstTokenId + i);
    }

    function GetBalance(owner: ActorID): (r: int)
      reads this
      ensures r == BalanceOf(Value().Owners(), owner)
    {
      if owner in ownerData.content then ownerData.content[owner].balance else 0
    }

    method ApproveForTokens(operator: ActorID, ids: seq<TokenID>, check: Check) returns (r: Result<(), NftError>)
      modifies this
      ensures r.Ok? ==> Ok(Value()) == ApproveTokens(old(Value()), operator, ids, true, check)
      ensures r.Err? ==> Err(r.error) == ApproveTokens(old(Value()), operator, ids, true, check)
      ensures r.Err? ==> Value() == old(Value())
    {
      var tokenArray := tokenData.content;
      for i := 0 to |ids|
        invariant Value() == old(Value())
        invariant ApproveAll(tokenArray, ids[i..], operator, true, check)
               == ApproveAll(tokenData.content, ids, operator, true, check)
      {
        var id := ids[i];
        if id !in tokenArray { return Err(TokenNotFound(id)); }
        var data := tokenArray[id];
        var refused := check(data, id);
        if refused.Some? { return Err(refused.value); }
        data := data.(operators := data.operators + {operator});
        tokenArray := tokenArray[id := data];
        assert ids[i..][1..] == ids[i + 1..];
      }
      tokenData := Cid(tokenArray);
      return Ok(());
    }

    method RevokeForTokens(operator: ActorID, ids: seq<TokenID>, check: Check) returns (r: Result<(), NftError>)
      modifies this
      ensures r.Ok? ==> Ok(Value()) == ApproveTokens(old(Value()), operator, ids, false, check)
      ensures r.Err? ==> Err(r.error) == ApproveTokens(old(Value()), operator, ids, false, check)
      ensures r.Err? ==> Value() == old(Value())
    {
      var tokenArray := tokenData.content;
      for i := 0 to |ids|
        invariant Value() == old(Value())
        invariant ApproveAll(tokenArray, ids[i..], operator, false, check)
               == ApproveAll(tokenData.content, ids, operator, false, check)
      {
        var id := ids[i];
        if id !in tokenArray { return Err(TokenNotFound(id)); }
        var data := tokenArray[id];
        var refused := check(data, id);
        if refused.Some? { return Err(refused.value); }
        data := data.(operators := data.operators - {operator});
        tokenArray := tokenArray[id := data];
        assert ids[i..][1..] == ids[i + 1..];
      }
      tokenData := Cid(tokenArray);
      return Ok(());
    }

    method ApproveForOwner(owner: ActorID, operator: ActorID)
      modifies this
      ensures Value() == NftLedgers.ApproveForOwner(old(Value()), owner, operator)
    {
      var ownerMap := ownerData.content;
      var newOwnerData :=
        if owner in ownerMap then
          OwnerData(ownerMap[owner].balance, ownerMap[owner].operators + {operator})
        else OwnerData(0, {});
      ownerData := Cid(ownerMap[owner := newOwnerData]);
    }

    method RevokeForAll(owner: ActorID, operator: ActorID)
      modifies this
      ensures Value() == NftLedgers.RevokeForAll(old(Value()), owner, operator)
    {
      var ownerMap := ownerData.content;
      if owner in ownerMap {
        var data := OwnerData(ownerMap[owner].balance, ownerMap[owner].operators - {operator});
        if data.balance == 0 && data.operators == {} {
          ownerMap := ownerMap - {owner};
        } else {
          ownerMap := ownerMap[owner := data];
        }
      }
      ownerData := Cid(ownerMap);
    }

    /** Returns the owner's new balance. */
    method BurnTokens(owner: ActorID, ids: seq<TokenID>, check: Check) returns (r: Result<U64, NftError>)
      modifies this
      ensures r.Ok? ==> NftLedgers.BurnTokens(old(Value()), owner, ids, check) == Ok((Value(), r.value))
      ensures r.Ok? ==> r.value == GetBalance(owner)
      ensures r.Err? ==> NftLedgers.BurnTokens(old(Value()), owner, ids, check) == Err(r.error)
      ensures r.Err? ==> Value() == old(Value())
    {
      var tokenArray, ownerMap := tokenData.content, ownerData.content;
      for i := 0 to |ids|
        invariant Value() == old(Value())
        invariant DeleteAll(tokenArray, ids[i..], check) == DeleteAll(tokenData.content, ids, check)
      {
        var id := ids[i];
        if id !in tokenArray { return Err(TokenNotFound(id)); }
        var data := tokenArray[id];
        tokenArray := tokenArray - {id};
        var refused := check(data, id);
        if refused.Some? { return Err(refused.value); }
        assert ids[i..][1..] == ids[i + 1..];
      }
      if owner !in ownerMap { return Err(InvariantFailed); }
      var newOwnerData := ownerMap[owner];
      var newBalance := Sub64(newOwnerData.balance, |ids|);
      newOwnerData := newOwnerData.(balance := newBalance);
      if newOwnerData.balance == 0 && newOwnerData.operators == {} {
        ownerMap := ownerMap - {owner};
      } else {
        ownerMap := ownerMap[owner := newOwnerData];
      }
      totalSupply := Sub64(totalSupply, |ids|);
      tokenData := Cid(tokenArray);
      ownerData := Cid(ownerMap);
      return Ok(newBalance);
    }

    /** Flushes after every token: on an error the object holds the part of the batch done so far. */
    method Transfer(ids: seq<TokenID>, receiver: ActorID, check: Check) returns (r: Result<(), NftError>)
      modifies this
      ensures r.Ok? ==> TransferTokens(old(Value()), ids, receiver, check) == Ok(Value())
      ensures r.Err? ==> TransferTokens(old(Value()), ids, receiver, check) == Err(r.error)
      ensures r.Err? ==>
        exists k | 0 <= k < |ids| :: TransferTokens(old(Value()), ids[..k], receiver, check) == Ok(Value())
    {
      ghost var m0 := (tokenData.content, ownerData.content);
      assert ids[..0] == [];
      for i := 0 to |ids|
        invariant nextToken == old(nextToken) && totalSupply == old(totalSupply)
        invariant TransferAll((tokenData.content, ownerData.content), ids[i..], receiver, check)
               == TransferAll(m0, ids, receiver, check)
        invariant TransferTokens(old(Value()), ids[..i], receiver, check) == Ok(Value())
      {
        ghost var m := (tokenData.content, ownerData.content);
        assert ids[i..][1..] == ids[i + 1..];
        var _ :- MakeTransfer(ids[i], receiver, check);
        assert ids[..i + 1] == ids[..i] + [ids[i]];
        TransferAllSnoc(m0, ids[..i], ids[i], receiver, check);
      }
      assert ids[..|ids|] == ids;
      return Ok(());
    }

    method MakeTransfer(id: TokenID, receiver: ActorID, check: Check) returns (r: Result<(), NftError>)
      modifies this
      ensures nextToken == old(nextToken) && totalSupply == old(totalSupply)
      ensures var before := (old(tokenData.content), old(ownerData.content));
              var spec := NftLedgers.MakeTransfer(before, id, receiver, check);
              && (r.Ok? ==> spec == Ok((tokenData.content, ownerData.content)))
              && (r.Err? ==> spec == Err(r.error) && Value() == old(Value()))
    {
      var tokenArray, ownerMap := tokenData.content, ownerData.content;
      if id !in tokenArray { return Err(TokenNotFound(id)); }
      var oldTokenData := tokenArray[id];
      var refused := check(oldTokenData, id);
      if refused.Some? { return Err(refused.value); }
      tokenArray := tokenArray[id := oldTokenData.(owner := receiver, operators := {})];

      if oldTokenData.owner !in ownerMap { return Err(InvariantFailed); }
      var previous := ownerMap[oldTokenData.owner];
      previous := previous.(balance := Sub64(previous.balance, 1));
      if previous.balance == 0 && previous.operators == {} {
        ownerMap := ownerMap - {oldTokenData.owner};
      } else {
        ownerMap := ownerMap[oldTokenData.owner := previous];
      }
      var newOwnerData :=
        if receiver in ownerMap then ownerMap[receiver].(balance := Add64(ownerMap[receiver].balance, 1))
        else OwnerData(1, {});
      ownerMap := ownerMap[receiver := newOwnerData];
      tokenData := Cid(tokenArray);
      ownerData := Cid(ownerMap);
      return Ok(());
    }

    // -------------------------------------------------------------- enumeration

    /** One page of the tokens whose data meets `keep`: all of them, those of an owner, or those an
        operator may move. */
    method ListPage(keep: TokenData -> bool, cursor: Option<Cursor>, limit: nat)
      returns (r: Result<(set<TokenID>, Option<Cursor>), NftError>)
      ensures r == Page(Value().tokenData, keep, cursor, limit)
    {
      if cursor.Some? && cursor.value.root != tokenData { return Err(InvalidCursor); }
      var tokenArray := tokenData.content;
      var start := if cursor.Some? then cursor.value.index else 0;
      var (visited, nextKey) := Range(tokenArray, start, limit);
      var ids: set<TokenID> := {};
      for i := 0 to |visited|
        invariant ids == Kept(tokenArray, visited[..i], keep)
      {
        assert visited[..i + 1] == visited[..i] + [visited[i]];
        if keep(tokenArray[visited[i]]) {
          ids := ids + {visited[i]};
        }
      }
      assert visited[..|visited|] == visited;
      return Ok((ids, NextCursor(tokenData, nextKey)));
    }

    method ListTokens(cursor: Option<Cursor>, limit: nat) returns (r: Result<(set<TokenID>, Option<Cursor>), NftError>)
      ensures r == Page(Value().tokenData, Any(), cursor, limit)
    {
      r := ListPage(Any(), cursor, limit);
    }

    method ListOwnedTokens(owner: ActorID, cursor: Option<Cursor>, limit: nat)
      returns (r: Result<(set<TokenID>, Option<Cursor>), NftError>)
      ensures r == Page(Value().tokenData, OwnedBy(owner), cursor, limit)
    {
      r := ListPage(OwnedBy(owner), cursor, limit);
    }

    method ListOperatorTokens(operator: ActorID, cursor: Option<Cursor>, limit: nat)
      returns (r: Result<(set<TokenID>, Option<Cursor>), NftError>)
      ensures r == Page(Value().tokenData, OperableBy(operator), cursor, limit)
    {
      r := ListPage(OperableBy(operator), cursor, limit);
    }

    method ListTokenOperators(id: TokenID, cursor: Option<Cursor>, limit: U64)
      returns (r: Result<(set<ActorID>, Option<Cursor>), NftError>)
      ensures r == TokenOperatorPage(Value().tokenData, id, cursor, limit)
    {
      if cursor.Some? && cursor.value.root != tokenData { return Err(InvalidCursor); }
      if id !in tokenData.content { return Err(TokenNotFound(id)); }
      var start := if cursor.Some? then cursor.value.index else 0;
      var allOperators := tokenData.content[id].operators;
      var operators := SkipTake(allOperators, start, limit);
      var next := Add64(start, limit);
      return Ok((operators, if |allOperators| > next then Some(Cursor(tokenData, next)) else None));
    }

    /** The cursor's root is not looked at. */
    method ListAccountOperators(owner: ActorID, cursor: Option<Cursor>, limit: U64)
      returns (r: (set<ActorID>, Option<Cursor>))
      ensures r == AccountOperatorPage(Value(), owner, cursor, limit)
    {
      if owner !in ownerData.content { return ({}, None); }
      var start := if cursor.Some? then cursor.value.index else 0;
      var allOperators := ownerData.content[owner].operators;
      var operators := SkipTake(allOperators, start, limit);
      var next := Add64(start, limit);
      return (operators, if |allOperators| > next then Some(Cursor(tokenData, next)) else None);
    }

    // -------------------------------------------------------------- invariant checking

    /** Tallies the tokens, in any order, by owner. */
    method Tally() returns (counted: map<ActorID, int>)
      ensures forall a :: Get(counted, a) == |Owned(tokenData.content, a)|
    {
      counted := map[];
      var todo := tokenData.content;
      while todo != map[]
        invariant forall a :: Get(counted, a) + |Owned(todo, a)| == |Owned(tokenData.content, a)|
        decreases |todo|
      {
        var id :| id in todo;
        var owner := todo[id].owner;
        forall a ensures |Owned(todo - {id}, a)| == |Owned(todo, a)| - if owner == a then 1 else 0 {
          DeleteTokenCounts(todo, id, a);
        }
        counted := counted[owner := Get(counted, owner) + 1];
        todo := todo - {id};
      }
      forall a ensures |Owned(todo, a)| == 0 {
        assert Owned(todo, a) == {};
      }
    }

    /** Accepts exactly when the supply is the token count and every stored entry is not empty and
        equals its tally.  Owners of tokens without an entry go unnoticed. */
    method CheckInvariants() returns (errors: seq<InvariantError>)
      ensures errors == [] <==> Accepted(Value())
    {
      errors := [];
      var tokens, owners := tokenData.content, ownerData.content;
      if totalSupply != |tokens| {
        errors := errors + [TotalSupplyMismatch(totalSupply, |tokens|)];
      }
      var counted := Tally();
      var todo := owners;
      while todo != map[]
        invariant forall a | a in todo :: a in owners && todo[a] == owners[a]
        invariant errors == [] <==>
          totalSupply == |tokens|
          && forall a | a in owners && a !in todo :: owners[a].balance == |Owned(tokens, a)| && !owners[a].Empty()
        decreases |todo|
      {
        var a :| a in todo;
        var data := todo[a];
        var expected := Get(counted, a);
        if expected != data.balance {
          errors := errors + [TokenBalanceMismatch(expected, data.balance)];
        }
        if data.balance == 0 && data.operators == {} {
          errors := errors + [ExplicitEmptyOwner(a)];
        }
        todo := todo - {a};
      }
      assert Value().Tokens() == tokens && Value().Owners() == owners;
    }
  }

  // ---------------------------------------------------------------- transaction bodies
  // The closures of the operator's calls, which the library runs on a copy of the state.

  method BurnFromBody(s: NFTState, owner: ActorID, operator: ActorID, ids: seq<TokenID>)
    returns (r: Result<U64, NftError>)
    modifies s
    ensures r.Ok? ==> Step(old(s.Value()), BurnFrom(owner, operator, ids)) == Ok(s.Value())
    ensures r.Ok? ==> r.value == s.GetBalance(owner)
    ensures r.Err? ==> Step(old(s.Value()), BurnFrom(owner, operator, ids)) == Err(r.error)
  {
    var accountOperator :- IsAccountOperator(s.ownerData.content, owner, operator);
    r := s.BurnTokens(owner, ids, OperatorCheck(owner, operator, accountOperator));
  }

  method TransferFromBody(s: NFTState, owner: ActorID, operator: ActorID, recipient: ActorID, ids: seq<TokenID>)
    returns (r: Result<(), NftError>)
    modifies s
    ensures r.Ok? ==> Step(old(s.Value()), TransferFrom(owner, operator, recipient, ids)) == Ok(s.Value())
    ensures r.Err? ==> Step(old(s.Value()), TransferFrom(owner, operator, recipient, ids)) == Err(r.error)
  {
    var accountOperator :- IsAccountOperator(s.ownerData.content, owner, operator);
    r := s.Transfer(ids, recipient, OperatorCheck(owner, operator, accountOperator));
  }

  /** Iterates over the operators in ascending order, skips `start` of them and collects at most `limit`;
      both numbers are truncated to a usize. */
  method SkipTake(operators: set<ActorID>, start: nat, limit: nat) returns (page: set<ActorID>)
    ensures page == Slice(Sorted(operators), start % USIZE, limit % USIZE)
  {
    var skip, left := start % USIZE, limit % USIZE;
    ghost var from, count := skip, left;
    var all := Sorted(operators);
    var i := 0;
    page := {};
    while i < |all| && left > 0
      invariant 0 <= i <= |all|
      invariant skip == from - Min(from, i)
      invariant left == count - (i - Min(from, i)) >= 0
      invariant page == Elements(all[Min(from, i)..i])
    {
      if skip > 0 {
        skip := skip - 1;
      } else {
        assert all[from..i + 1] == all[from..i] + [all[i]];
        page := page + {all[i]};
        left := left - 1;
      }
      i := i + 1;
    }
    assert left == 0 && count > 0 ==> Min(from, i) == from && i == from + count;
  }

  lemma {:induction false} TransferAllSnoc(m: Maps, ids: seq<TokenID>, id: TokenID, receiver: ActorID, check: Check)
    ensures TransferAll(m, ids, receiver, check).Ok? ==>
      TransferAll(m, ids + [id], receiver, check)
      == NftLedgers.MakeTransfer(TransferAll(m, ids, receiver, check).value, id, receiver, check)
    decreases |ids|
  {
    if ids == [] {
      assert ids + [id] == [id];
      assert [id][1..] == [];
    } else if NftLedgers.MakeTransfer(m, ids[0], receiver, check).Ok? {
      assert (ids + [id])[1..] == ids[1..] + [id];
      TransferAllSnoc(NftLedgers.MakeTransfer(m, ids[0], receiver, check).value, ids[1..], id, receiver, check);
    }
  }

  predicate Accepted(n: Nft) {
    && n.supply == |n.Tokens()|
    && forall a | a in n.Owners() :: n.Owners()[a].balance == |Owned(n.Tokens(), a)| && !n.Owners()[a].Empty()
  }

  // ---------------------------------------------------------------- what acceptance means

  function Balances(m: OwnerMap): map<ActorID, int> {
    map a | a in m :: m[a].balance
  }

  function OwnedIn(tokens: TokenArray, owners: set<ActorID>): set<TokenID> {
    set id | id in tokens && tokens[id].owner in owners
  }

  /** On a ledger whose index agrees, the checker only looks for empty entries. */
  lemma AcceptedIfAgreeing(n: Nft)
    requires Agrees(n)
    ensures Accepted(n) <==> NoEmptyEntry(n.Owners())
  {
    forall a | a in n.Owners() ensures n.Owners()[a].balance == |Owned(n.Tokens(), a)| {
      assert BalanceOf(n.Owners(), a) == |Owned(n.Tokens(), a)|;
    }
  }

  /** What the checker accepts agrees fully if and only if the stored balances add up to the supply. */
  lemma AcceptedAgreesExactly(n: Nft)
    requires Accepted(n)
    ensures IndexAgrees(n.Tokens(), n.Owners()) <==> Sum(Balances(n.Owners())) == n.supply
  {
    var tokens, owners := n.Tokens(), n.Owners();
    SumCountsOwned(tokens, Balances(owners));
    var covered := OwnedIn(tokens, owners.Keys);
    assert Balances(owners).Keys == owners.Keys;
    if |covered| == |tokens| {
      SameSize(covered, tokens.Keys);
      forall a ensures BalanceOf(owners, a) == |Owned(tokens, a)| {
        if a !in owners {
          assert forall id | id in tokens :: id in covered;
          assert Owned(tokens, a) == {};
        }
      }
    }
    if IndexAgrees(tokens, owners) {
      forall id | id in tokens ensures id in covered {
        var a := tokens[id].owner;
        assert id in Owned(tokens, a);
        assert BalanceOf(owners, a) == |Owned(tokens, a)|;
      }
      assert covered == tokens.Keys;
    }
  }

  /** If every entry equals its tally, the entries add up to the tokens of the accounts listed. */
  lemma {:induction false} SumCountsOwned(tokens: TokenArray, m: map<ActorID, int>)
    requires forall a | a in m :: m[a] == |Owned(tokens, a)|
    ensures Sum(m) == |OwnedIn(tokens, m.Keys)|
    decreases |m|
  {
    if m == map[] {
      assert OwnedIn(tokens, m.Keys) == {};
    } else {
      var a :| a in m;
      var rest := m - {a};
      SumRemove(m, a);
      SumCountsOwned(tokens, rest);
      assert rest.Keys == m.Keys - {a};
      OwnedInSplits(tokens, m.Keys, a);
    }
  }

  lemma OwnedInSplits(tokens: TokenArray, owners: set<ActorID>, a: ActorID)
    requires a in owners
    ensures |OwnedIn(tokens, owners)| == |OwnedIn(tokens, owners - {a})| + |Owned(tokens, a)|
  {
    assert OwnedIn(tokens, owners) == OwnedIn(tokens, owners - {a}) + Owned(tokens, a);
    assert OwnedIn(tokens, owners - {a}) * Owned(tokens, a) == {};
  }

  /** Without that sum an owner of tokens who has no entry is missed. */
  lemma CheckerMissesOwner()
    ensures var n := Nft(Cid(map[0 := TokenData(7, {}, "")]), Cid(map[]), 1, 1);
            Accepted(n) && !IndexAgrees(n.Tokens(), n.Owners())
  {
    var n := Nft(Cid(map[0 := TokenData(7, {}, "")]), Cid(map[]), 1, 1);
    assert 0 in Owned(n.Tokens(), 7);
    assert BalanceOf(n.Owners(), 7) == 0;
  }
}
