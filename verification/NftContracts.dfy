/**
 Every call of the NFT ledger, said without its loops and checks: exactly when it succeeds, what becomes
 of each token, each account's operators and each entry, and what an error tells.
 */
module NftContracts {
  import opened Basics
  import opened NftLedgers
  import opened NftRuns

  // ---------------------------------------------------------------- when calls succeed

  /** When the i-th id's turn comes it is live and owned by `owner`; a repeated id has already moved. */
  predicate OwnedInTurn(tokens: TokenArray, ids: seq<TokenID>, i: nat, receiver: ActorID, owner: ActorID)
    requires i < |ids|
  {
    ids[i] in tokens && owner == if ids[i] in ids[..i] then receiver else tokens[ids[i]].owner
  }

  predicate OwnsAll(tokens: TokenArray, ids: seq<TokenID>, owner: ActorID) {
    forall id | id in ids :: id in tokens && tokens[id].owner == owner
  }

  lemma TransferSucceedsExactly(n: Nft, owner: ActorID, recipient: ActorID, ids: seq<TokenID>)
    requires Agrees(n)
    ensures Step(n, Transfer(owner, recipient, ids)).Ok? <==>
      forall i | 0 <= i < |ids| :: OwnedInTurn(n.Tokens(), ids, i, recipient, owner)
  {
    var tokens, check := n.Tokens(), OwnsCheck(owner);
    TransferAllExactly((tokens, n.Owners()), ids, recipient, check);
    forall i | 0 <= i < |ids|
      ensures OwnedInTurn(tokens, ids, i, recipient, owner)
         <==> ids[i] in tokens && check(SeenAt(tokens, ids, i, recipient), ids[i]).None?
    {
    }
  }

  /** An operator can move exactly what the owner can and it is approved for: by the account, which must
      have an entry, or by the token, whose approvals go when it moves. */
  lemma TransferFromSucceedsExactly(n: Nft, owner: ActorID, operator: ActorID, recipient: ActorID, ids: seq<TokenID>)
    requires Agrees(n)
    ensures Step(n, TransferFrom(owner, operator, recipient, ids)).Ok? <==>
      && owner in n.Owners()
      && forall i | 0 <= i < |ids| ::
           && OwnedInTurn(n.Tokens(), ids, i, recipient, owner)
           && (operator in n.Owners()[owner].operators
               || (ids[i] !in ids[..i] && operator in n.Tokens()[ids[i]].operators))
  {
    if owner in n.Owners() {
      var tokens, account := n.Tokens(), operator in n.Owners()[owner].operators;
      var check := OperatorCheck(owner, operator, account);
      TransferAllExactly((tokens, n.Owners()), ids, recipient, check);
      forall i | 0 <= i < |ids|
        ensures OwnedInTurn(tokens, ids, i, recipient, owner)
                && (account || (ids[i] !in ids[..i] && operator in tokens[ids[i]].operators))
           <==> ids[i] in tokens && check(SeenAt(tokens, ids, i, recipient), ids[i]).None?
      {
      }
    }
  }

  lemma BurnSucceedsExactly(n: Nft, owner: ActorID, ids: seq<TokenID>)
    requires Agrees(n)
    ensures Step(n, Burn(owner, ids)).Ok? <==>
      Distinct(ids) && OwnsAll(n.Tokens(), ids, owner) && (ids == [] ==> owner in n.Owners())
  {
    DeleteAllExactly(n.Tokens(), ids, OwnsCheck(owner));
    ChecksImplyOwner(owner, owner, false);
    BurnInvariantFailure(n, owner, ids, OwnsCheck(owner));
  }

  lemma BurnFromSucceedsExactly(n: Nft, owner: ActorID, operator: ActorID, ids: seq<TokenID>)
    requires Agrees(n)
    ensures Step(n, BurnFrom(owner, operator, ids)).Ok? <==>
      && owner in n.Owners() && Distinct(ids) && OwnsAll(n.Tokens(), ids, owner)
      && forall id | id in ids :: operator in n.Owners()[owner].operators || operator in n.Tokens()[id].operators
  {
    if owner in n.Owners() {
      var account := operator in n.Owners()[owner].operators;
      DeleteAllExactly(n.Tokens(), ids, OperatorCheck(owner, operator, account));
    }
  }

  lemma {:induction false} OwnedApproveExactly(tokens: TokenArray, ids: seq<TokenID>, operator: ActorID, approve: bool,
                                               owner: ActorID)
    ensures ApproveAll(tokens, ids, operator, approve, OwnsCheck(owner)).Ok? <==> OwnsAll(tokens, ids, owner)
    decreases |ids|
  {
    if ids != [] {
      assert ids == [ids[0]] + ids[1..];
      if ids[0] in tokens && tokens[ids[0]].owner == owner {
        var tokens1 := tokens[ids[0] := WithOperator(tokens[ids[0]], operator, approve)];
        OwnedApproveExactly(tokens1, ids[1..], operator, approve, owner);
        assert OwnsAll(tokens1, ids[1..], owner) <==> OwnsAll(tokens, ids[1..], owner);
      }
    }
  }

  /** Approving and revoking take an owner; account approvals and mints never fail. */
  lemma OtherCallsSucceedExactly(n: Nft, owner: ActorID, operator: ActorID, ids: seq<TokenID>, metadatas: seq<string>)
    ensures Step(n, Approve(owner, operator, ids)).Ok? <==> OwnsAll(n.Tokens(), ids, owner)
    ensures Step(n, Revoke(owner, operator, ids)).Ok? <==> OwnsAll(n.Tokens(), ids, owner)
    ensures Step(n, ApproveAccount(owner, operator)).Ok? && Step(n, RevokeAccount(owner, operator)).Ok?
    ensures Step(n, Mint(owner, metadatas)).Ok?
  {
    OwnedApproveExactly(n.Tokens(), ids, operator, true, owner);
    OwnedApproveExactly(n.Tokens(), ids, operator, false, owner);
  }

  // ---------------------------------------------------------------- what calls do to tokens

  /** The token at `id` after a call that is not a mint. */
  function TokenAfter(data: TokenData, id: TokenID, c: Call): TokenData {
    match c
    case Transfer(_, recipient, ids) => if id in ids then TokenData(recipient, {}, data.metadata) else data
    case TransferFrom(_, _, recipient, ids) => if id in ids then TokenData(recipient, {}, data.metadata) else data
    case Approve(_, operator, ids) =>
      if id in ids then TokenData(data.owner, data.operators + {operator}, data.metadata) else data
    case Revoke(_, operator, ids) =>
      if id in ids then TokenData(data.owner, data.operators - {operator}, data.metadata) else data
    case _ => data
  }

  /** A successful call that is not a mint removes the tokens it burns, and makes of the others exactly
      what it says. */
  lemma TokensExactly(n: Nft, c: Call)
    requires Step(n, c).Ok? && !c.Mint?
    ensures var tokens, tokens' := n.Tokens(), Step(n, c).value.Tokens();
            && (forall id :: id in tokens' <==> id in tokens && !((c.Burn? || c.BurnFrom?) && id in c.ids))
            && (forall id | id in tokens' :: tokens'[id] == TokenAfter(tokens[id], id, c))
  {
    var tokens, tokens' := n.Tokens(), Step(n, c).value.Tokens();
    forall id
      ensures id in tokens' <==> id in tokens && !((c.Burn? || c.BurnFrom?) && id in c.ids)
      ensures id in tokens' ==> tokens'[id] == TokenAfter(tokens[id], id, c)
    {
      StepTokens(n, c, id);
    }
  }

  // ---------------------------------------------------------------- what calls do to accounts

  function AccountOperatorsAfter(m: OwnerMap, c: Call, a: ActorID): set<ActorID> {
    var now := if a in m then m[a].operators else {};
    match c
    case ApproveAccount(owner, operator) => if a == owner && a in m then now + {operator} else now
    case RevokeAccount(owner, operator) => if a == owner then now - {operator} else now
    case _ => now
  }

  /** No call but an account's own approvals and revocations changes its operators: neither mints nor
      burns nor transfers, even where its entry is deleted and made again. */
  lemma AccountOperatorsExactly(n: Nft, c: Call, a: ActorID)
    requires Step(n, c).Ok?
    ensures OperatorsOf(Step(n, c).value.Owners(), a) == AccountOperatorsAfter(n.Owners(), c, a)
  {
    var m := (n.Tokens(), n.Owners());
    match c
    case Transfer(owner, recipient, ids) => TransferAllMoves(m, ids, recipient, OwnsCheck(owner));
    case TransferFrom(owner, operator, recipient, ids) =>
      var account := IsAccountOperator(n.Owners(), owner, operator).value;
      TransferAllMoves(m, ids, recipient, OperatorCheck(owner, operator, account));
    case _ =>
  }

  /** Whether `a` approved `p` for its account, when it had an entry, and has not revoked it since. */
  function ApprovedByAccount(calls: seq<Call>, a: ActorID, p: ActorID): bool
    decreases |calls|
  {
    calls != [] &&
    var before, c := calls[..|calls| - 1], calls[|calls| - 1];
    if c == ApproveAccount(a, p) then a in Exec(before).Owners()
    else c != RevokeAccount(a, p) && ApprovedByAccount(before, a, p)
  }

  /** In every run whatever, the operators listed on an account are those. */
  lemma {:induction false} AccountOperatorsAreApproved(calls: seq<Call>, a: ActorID, p: ActorID)
    ensures p in OperatorsOf(Exec(calls).Owners(), a) <==> ApprovedByAccount(calls, a, p)
    decreases |calls|
  {
    if calls != [] {
      var before, c := calls[..|calls| - 1], calls[|calls| - 1];
      AccountOperatorsAreApproved(before, a, p);
      if Step(Exec(before), c).Ok? {
        AccountOperatorsExactly(Exec(before), c, a);
      } else {
        OtherCallsSucceedExactly(Exec(before), a, p, [], []);
      }
    }
  }

  predicate SameEntry(m: OwnerMap, m': OwnerMap, a: ActorID) {
    (a in m <==> a in m') && (a in m ==> m'[a] == m[a])
  }

  /** The entry of an account that the call does not name is not touched. */
  lemma OtherEntriesStay(n: Nft, c: Call, a: ActorID)
    requires Step(n, c).Ok? && a != c.owner && ((c.Transfer? || c.TransferFrom?) ==> a != c.recipient)
    ensures SameEntry(n.Owners(), Step(n, c).value.Owners(), a)
  {
    var m := (n.Tokens(), n.Owners());
    match c
    case Transfer(owner, recipient, ids) =>
      ChecksImplyOwner(owner, owner, false);
      TransferKeepsEntry(m, ids, recipient, OwnsCheck(owner), owner, a);
    case TransferFrom(owner, operator, recipient, ids) =>
      var account := IsAccountOperator(n.Owners(), owner, operator).value;
      ChecksImplyOwner(owner, operator, account);
      TransferKeepsEntry(m, ids, recipient, OperatorCheck(owner, operator, account), owner, a);
    case _ =>
  }

  lemma {:induction false} TransferKeepsEntry(m: Maps, ids: seq<TokenID>, receiver: ActorID, check: Check,
                                              owner: ActorID, a: ActorID)
    requires ImpliesOwner(check, owner) && a != owner && a != receiver
    requires TransferAll(m, ids, receiver, check).Ok?
    ensures SameEntry(m.1, TransferAll(m, ids, receiver, check).value.1, a)
    decreases |ids|
  {
    if ids != [] {
      TransferKeepsEntry(MakeTransfer(m, ids[0], receiver, check).value, ids[1..], receiver, check, owner, a);
    }
  }

  /** An account that burns, gives away tokens or revokes is left without an entry if it has neither
      tokens nor operators; one that receives or approves has an entry. */
  lemma NamedEntries(n: Nft, c: Call)
    requires Step(n, c).Ok?
    ensures var m' := Step(n, c).value.Owners();
            match c
            case Mint(owner, _) => owner in m'
            case ApproveAccount(owner, _) => owner in m'
            case Burn(owner, _) => owner in m' ==> !m'[owner].Empty()
            case BurnFrom(owner, _, _) => owner in m' ==> !m'[owner].Empty()
            case RevokeAccount(owner, _) => owner in m' ==> !m'[owner].Empty()
            case Transfer(owner, recipient, ids) =>
              ids != [] ==> recipient in m' && (owner != recipient && owner in m' ==> !m'[owner].Empty())
            case TransferFrom(owner, _, recipient, ids) =>
              ids != [] ==> recipient in m' && (owner != recipient && owner in m' ==> !m'[owner].Empty())
            case _ => m' == n.Owners()
  {
    var m := (n.Tokens(), n.Owners());
    match c
    case Transfer(owner, recipient, ids) =>
      ChecksImplyOwner(owner, owner, false);
      TransferLeavesEntries(m, ids, recipient, OwnsCheck(owner), owner);
    case TransferFrom(owner, operator, recipient, ids) =>
      var account := IsAccountOperator(n.Owners(), owner, operator).value;
      ChecksImplyOwner(owner, operator, account);
      TransferLeavesEntries(m, ids, recipient, OperatorCheck(owner, operator, account), owner);
    case _ =>
  }

  lemma {:induction false} TransferLeavesEntries(m: Maps, ids: seq<TokenID>, receiver: ActorID, check: Check,
                                                 owner: ActorID)
    requires ImpliesOwner(check, owner) && TransferAll(m, ids, receiver, check).Ok?
    ensures var m' := TransferAll(m, ids, receiver, check).value.1;
            ids != [] ==> receiver in m' && (owner != receiver && owner in m' ==> !m'[owner].Empty())
    decreases |ids|
  {
    if ids != [] {
      TransferLeavesEntries(MakeTransfer(m, ids[0], receiver, check).value, ids[1..], receiver, check, owner);
    }
  }

  // ---------------------------------------------------------------- errors

  predicate Repeated(ids: seq<TokenID>, i: nat)
    requires i < |ids|
  {
    ids[i] in ids[..i]
  }

  /** The error is about the i-th id of the batch: not live, or already burnt by it; not the owner's, or
      already given away by it; or not approved for the operator. */
  predicate Concerns(n: Nft, c: Call, error: NftError, i: nat)
    requires !c.Mint? && !c.ApproveAccount? && !c.RevokeAccount? && i < |c.ids|
  {
    var tokens, id := n.Tokens(), c.ids[i];
    match error
    case TokenNotFound(x) => x == id && (id !in tokens || ((c.Burn? || c.BurnFrom?) && Repeated(c.ids, i)))
    case NotOwner(a, x) =>
      && x == id && a == c.owner && id in tokens
      && (tokens[id].owner != a
          || ((c.Transfer? || c.TransferFrom?) && Repeated(c.ids, i) && c.recipient != a))
    case NotAuthorized(p, x) =>
      && x == id && (c.BurnFrom? || c.TransferFrom?) && p == c.operator && id in tokens
      && p !in OperatorsOf(n.Owners(), c.owner)
      && (p !in tokens[id].operators || (c.TransferFrom? && Repeated(c.ids, i)))
    case _ => false
  }

  /** A call that fails reports the missing entry of its owner, or something true of an id it names. */
  lemma ErrorsTellCauses(n: Nft, c: Call)
    requires Agrees(n) && Step(n, c).Err?
    ensures !c.Mint? && !c.ApproveAccount? && !c.RevokeAccount?
    ensures Step(n, c).error == InvariantFailed ==> c.owner !in n.Owners()
    ensures Step(n, c).error != InvariantFailed ==>
      exists i | 0 <= i < |c.ids| :: Concerns(n, c, Step(n, c).error, i)
  {
    var m, error := (n.Tokens(), n.Owners()), Step(n, c).error;
    if error != InvariantFailed {
      var i: nat;
      match c {
        case Burn(owner, ids) => i := DeleteError(m.0, ids, OwnsCheck(owner));
        case BurnFrom(owner, operator, ids) =>
          i := DeleteError(m.0, ids, OperatorCheck(owner, operator, operator in n.Owners()[owner].operators));
        case Transfer(owner, recipient, ids) => i := TransferError(m, ids, recipient, OwnsCheck(owner));
        case TransferFrom(owner, operator, recipient, ids) =>
          i := TransferError(m, ids, recipient,
                             OperatorCheck(owner, operator, operator in n.Owners()[owner].operators));
        case Approve(owner, operator, ids) => i := ApproveError(m.0, ids, operator, true, owner);
        case Revoke(owner, operator, ids) => i := ApproveError(m.0, ids, operator, false, owner);
      }
      assert Concerns(n, c, error, i);
    } else {
      InvariantFailsExactly(n, c);
    }
  }

  /** The index is found broken exactly where the owner of the call has no entry and the batch is empty or
      the call an operator's. */
  lemma InvariantFailsExactly(n: Nft, c: Call)
    requires Agrees(n)
    ensures Step(n, c) == Err(InvariantFailed) <==>
      && c.owner !in n.Owners()
      && (c.BurnFrom? || c.TransferFrom? || (c.Burn? && c.ids == []))
  {
    var m := (n.Tokens(), n.Owners());
    match c
    case Burn(owner, ids) =>
      ChecksImplyOwner(owner, owner, false);
      BurnInvariantFailure(n, owner, ids, OwnsCheck(owner));
    case BurnFrom(owner, operator, ids) =>
      if owner in n.Owners() {
        var check := OperatorCheck(owner, operator, operator in n.Owners()[owner].operators);
        ChecksImplyOwner(owner, operator, operator in n.Owners()[owner].operators);
        BurnInvariantFailure(n, owner, ids, check);
      }
    case Transfer(owner, recipient, ids) =>
      if Step(n, c).Err? { var _ := TransferError(m, ids, recipient, OwnsCheck(owner)); }
    case TransferFrom(owner, operator, recipient, ids) =>
      if owner in n.Owners() && Step(n, c).Err? {
        var check := OperatorCheck(owner, operator, operator in n.Owners()[owner].operators);
        var _ := TransferError(m, ids, recipient, check);
      }
    case Approve(owner, operator, ids) =>
      if Step(n, c).Err? { var _ := ApproveError(m.0, ids, operator, true, owner); }
    case Revoke(owner, operator, ids) =>
      if Step(n, c).Err? { var _ := ApproveError(m.0, ids, operator, false, owner); }
    case _ =>
  }

  predicate DeleteStops(tokens: TokenArray, ids: seq<TokenID>, check: Check, error: NftError, i: nat)
    requires i < |ids|
  {
    || (error == TokenNotFound(ids[i]) && (ids[i] !in tokens || Repeated(ids, i)))
    || (ids[i] in tokens && check(tokens[ids[i]], ids[i]) == Some(error))
  }

  lemma {:induction false} DeleteError(tokens: TokenArray, ids: seq<TokenID>, check: Check) returns (i: nat)
    requires DeleteAll(tokens, ids, check).Err?
    ensures i < |ids| && DeleteStops(tokens, ids, check, DeleteAll(tokens, ids, check).error, i)
    decreases |ids|
  {
    i := 0;
    if ids[0] in tokens && check(tokens[ids[0]], ids[0]).None? {
      var j := DeleteError(tokens - {ids[0]}, ids[1..], check);
      i := j + 1;
      assert ids[..i] == [ids[0]] + ids[1..][..j];
    }
  }

  predicate TransferStops(tokens: TokenArray, ids: seq<TokenID>, receiver: ActorID, check: Check, error: NftError,
                          i: nat)
    requires i < |ids|
  {
    if ids[i] !in tokens then error == TokenNotFound(ids[i])
    else check(SeenAt(tokens, ids, i, receiver), ids[i]) == Some(error)
  }

  lemma {:induction false} TransferError(m: Maps, ids: seq<TokenID>, receiver: ActorID, check: Check)
    returns (i: nat)
    requires MapsAgree(m) && TransferAll(m, ids, receiver, check).Err?
    ensures i < |ids| && TransferStops(m.0, ids, receiver, check, TransferAll(m, ids, receiver, check).error, i)
    decreases |ids|
  {
    i := 0;
    MakeTransferExactly(m, ids[0], receiver, check);
    if MakeTransfer(m, ids[0], receiver, check).Ok? {
      var j := TransferError(MakeTransfer(m, ids[0], receiver, check).value, ids[1..], receiver, check);
      i := j + 1;
      assert ids[..i] == [ids[0]] + ids[1..][..j];
    }
  }

  predicate ApproveStops(tokens: TokenArray, ids: seq<TokenID>, owner: ActorID, error: NftError, i: nat)
    requires i < |ids|
  {
    if ids[i] !in tokens then error == TokenNotFound(ids[i])
    else tokens[ids[i]].owner != owner && error == NotOwner(owner, ids[i])
  }

  lemma {:induction false} ApproveError(tokens: TokenArray, ids: seq<TokenID>, operator: ActorID, approve: bool,
                                        owner: ActorID) returns (i: nat)
    requires ApproveAll(tokens, ids, operator, approve, OwnsCheck(owner)).Err?
    ensures i < |ids|
    ensures ApproveStops(tokens, ids, owner, ApproveAll(tokens, ids, operator, approve, OwnsCheck(owner)).error, i)
    decreases |ids|
  {
    i := 0;
    if ids[0] in tokens && tokens[ids[0]].owner == owner {
      var tokens1 := tokens[ids[0] := WithOperator(tokens[ids[0]], operator, approve)];
      var j := ApproveError(tokens1, ids[1..], operator, approve, owner);
      i := j + 1;
    }
  }
}
