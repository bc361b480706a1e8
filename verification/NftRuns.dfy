/**
 Whole runs of the NFT ledger from the empty collection: when the index agrees, who can move or burn a
 token, where its operators come from, and what becomes of its id.
 */
module NftRuns {
  import opened Basics
  import opened NftLedgers

  /** A call that fails changes nothing. */
  function After(n: Nft, c: Call): Nft {
    match Step(n, c)
    case Ok(n') => n'
    case Err(_) => n
  }

  function Exec(calls: seq<Call>): Nft
    decreases |calls|
  {
    if calls == [] then EMPTY_NFT else After(Exec(calls[..|calls| - 1]), calls[|calls| - 1])
  }

  lemma ExecSnoc(calls: seq<Call>, c: Call)
    ensures Exec(calls + [c]) == After(Exec(calls), c)
  {
    assert (calls + [c])[..|calls|] == calls;
  }

  /** How many tokens a call mints; minting never fails. */
  function Mints(c: Call): nat {
    if c.Mint? then |c.metadatas| else 0
  }

  function Burns(n: Nft, c: Call): nat {
    if (c.Burn? || c.BurnFrom?) && Step(n, c).Ok? then |c.ids| else 0
  }

  function Minted(calls: seq<Call>): nat {
    if calls == [] then 0 else Minted(calls[..|calls| - 1]) + Mints(calls[|calls| - 1])
  }

  function Burnt(calls: seq<Call>): nat
    decreases |calls|
  {
    if calls == [] then 0
    else Burnt(calls[..|calls| - 1]) + Burns(Exec(calls[..|calls| - 1]), calls[|calls| - 1])
  }

  // ---------------------------------------------------------------- counters

  lemma StepCounters(n: Nft, c: Call)
    ensures After(n, c).next == Add64(n.next, Mints(c))
    ensures After(n, c).supply == (n.supply + Mints(c) - Burns(n, c)) % TWO64
  {
    if c.Mint? {
      MintAllExactly(n.Tokens(), n.next, c.owner, c.metadatas, 0);
    }
  }

  /** In every run the next id is the number of tokens ever minted, and the supply is that number less
      those burnt, both modulo 2^64. */
  lemma {:induction false} CountersExactly(calls: seq<Call>)
    ensures Exec(calls).next == Minted(calls) % TWO64
    ensures Exec(calls).supply == (Minted(calls) - Burnt(calls)) % TWO64
    decreases |calls|
  {
    if calls != [] {
      var before, c := calls[..|calls| - 1], calls[|calls| - 1];
      CountersExactly(before);
      StepCounters(Exec(before), c);
      WrapAdd(Minted(before), Mints(c));
      WrapAdd(Minted(before) - Burnt(before), Mints(c) - Burns(Exec(before), c));
    }
  }

  lemma WrapAdd(x: int, d: int)
    ensures (x % TWO64 + d) % TWO64 == (x + d) % TWO64
  {
  }

  // ---------------------------------------------------------------- agreement

  lemma EmptyAgrees()
    ensures Agrees(EMPTY_NFT)
  {
    forall a ensures BalanceOf(EMPTY_NFT.Owners(), a) == |Owned(EMPTY_NFT.Tokens(), a)| {
      assert Owned(EMPTY_NFT.Tokens(), a) == {};
    }
  }

  ghost predicate AlwaysAgrees(calls: seq<Call>) {
    forall k | 0 <= k <= |calls| :: Agrees(Exec(calls[..k]))
  }

  predicate AllSafe(calls: seq<Call>) {
    forall k | 0 <= k < |calls| :: Safe(Exec(calls[..k]), calls[k])
  }

  lemma AlwaysAgreesSnoc(calls: seq<Call>)
    requires calls != []
    ensures var before := calls[..|calls| - 1];
            AlwaysAgrees(calls) <==> AlwaysAgrees(before) && Agrees(Exec(calls))
  {
    var before := calls[..|calls| - 1];
    assert calls[..|calls|] == calls;
    assert forall k | 0 <= k <= |before| :: before[..k] == calls[..k];
    if AlwaysAgrees(calls) {
      forall k | 0 <= k <= |before| ensures Agrees(Exec(before[..k])) {
        assert Agrees(Exec(calls[..k]));
      }
      assert Agrees(Exec(calls[..|calls|]));
    }
  }

  lemma AllSafeSnoc(calls: seq<Call>)
    requires calls != []
    ensures var before, c := calls[..|calls| - 1], calls[|calls| - 1];
            AllSafe(calls) <==> AllSafe(before) && Safe(Exec(before), c)
  {
    var before := calls[..|calls| - 1];
    assert forall k | 0 <= k <= |before| :: before[..k] == calls[..k];
    if AllSafe(calls) {
      forall k | 0 <= k < |before| ensures Safe(Exec(before[..k]), before[k]) {
        assert Safe(Exec(calls[..k]), calls[k]);
      }
    }
  }

  /** For every run whatever: each balance counts the tokens owned and the supply counts the live tokens
      all along, if and only if every mint finds its ids free and the supply with room, in its turn. */
  lemma {:induction false} RunAgreesExactly(calls: seq<Call>)
    ensures AlwaysAgrees(calls) <==> AllSafe(calls)
    decreases |calls|
  {
    if calls == [] {
      EmptyAgrees();
      assert forall k | 0 <= k <= |calls| :: calls[..k] == [];
    } else {
      var before, c := calls[..|calls| - 1], calls[|calls| - 1];
      RunAgreesExactly(before);
      AlwaysAgreesSnoc(calls);
      AllSafeSnoc(calls);
      if AlwaysAgrees(before) {
        assert before[..|before|] == before;
        assert Agrees(Exec(before));
        if Step(Exec(before), c).Ok? {
          StepAgreesExactly(Exec(before), c);
        }
      }
    }
  }

  /** While the index agrees the supply is exactly what was minted less what was burnt. */
  lemma {:induction false} SupplyExactly(calls: seq<Call>)
    requires AllSafe(calls)
    ensures Agrees(Exec(calls)) && Exec(calls).supply == Minted(calls) - Burnt(calls)
    decreases |calls|
  {
    if calls == [] {
      EmptyAgrees();
    } else {
      var before, c := calls[..|calls| - 1], calls[|calls| - 1];
      AllSafeSnoc(calls);
      SupplyExactly(before);
      StepSupply(Exec(before), c);
    }
  }

  lemma StepSupply(n: Nft, c: Call)
    requires Agrees(n) && Safe(n, c)
    ensures Agrees(After(n, c)) && After(n, c).supply == n.supply + Mints(c) - Burns(n, c)
  {
    if Step(n, c).Ok? {
      StepAgreesExactly(n, c);
      match c
      case Mint(owner, metadatas) =>
      case Burn(owner, ids) =>
        ChecksImplyOwner(owner, owner, false);
        BurnAgrees(n, owner, ids, OwnsCheck(owner));
      case BurnFrom(owner, operator, ids) =>
        var account := IsAccountOperator(n.Owners(), owner, operator).value;
        ChecksImplyOwner(owner, operator, account);
        BurnAgrees(n, owner, ids, OperatorCheck(owner, operator, account));
      case _ =>
    }
  }

  // ---------------------------------------------------------------- what one call does to a token

  predicate MovesOrBurns(c: Call, id: TokenID) {
    (c.Burn? || c.BurnFrom? || c.Transfer? || c.TransferFrom?) && id in c.ids
  }

  predicate ChangesOperator(c: Call, id: TokenID, p: ActorID) {
    (c.Approve? || c.Revoke?) && id in c.ids && c.operator == p
  }

  /** The call mints a token at this id. */
  predicate MintsAt(n: Nft, c: Call, id: TokenID) {
    c.Mint? && Writes(n.next, |c.metadatas|, id)
  }

  /** The tokens after a successful call that does not mint at `id`. */
  lemma StepTokens(n: Nft, c: Call, id: TokenID)
    requires Step(n, c).Ok? && !MintsAt(n, c, id)
    ensures var tokens, tokens' := n.Tokens(), Step(n, c).value.Tokens();
            && (id in tokens' <==> id in tokens && !((c.Burn? || c.BurnFrom?) && id in c.ids))
            && (id in tokens' ==>
                  tokens'[id] == if MovesOrBurns(c, id) then Moved(tokens[id], c.recipient)
                                 else if (c.Approve? || c.Revoke?) && id in c.ids
                                 then WithOperator(tokens[id], c.operator, c.Approve?) else tokens[id])
  {
    var m := (n.Tokens(), n.Owners());
    match c
    case Mint(owner, metadatas) => MintAllExactly(n.Tokens(), n.next, owner, metadatas, id);
    case Burn(owner, ids) => DeleteAllExactly(n.Tokens(), ids, OwnsCheck(owner));
    case BurnFrom(owner, operator, ids) =>
      var account := IsAccountOperator(n.Owners(), owner, operator).value;
      DeleteAllExactly(n.Tokens(), ids, OperatorCheck(owner, operator, account));
    case Approve(owner, operator, ids) => ApproveAllExactly(n.Tokens(), ids, operator, true, OwnsCheck(owner));
    case Revoke(owner, operator, ids) => ApproveAllExactly(n.Tokens(), ids, operator, false, OwnsCheck(owner));
    case Transfer(owner, recipient, ids) => TransferAllMoves(m, ids, recipient, OwnsCheck(owner));
    case TransferFrom(owner, operator, recipient, ids) =>
      var account := IsAccountOperator(n.Owners(), owner, operator).value;
      TransferAllMoves(m, ids, recipient, OperatorCheck(owner, operator, account));
    case _ =>
  }

  /** The check of a batch has passed the token as it was before the batch. */
  lemma {:induction false} TransferChecked(m: Maps, ids: seq<TokenID>, receiver: ActorID, check: Check, id: TokenID)
    requires TransferAll(m, ids, receiver, check).Ok? && id in ids
    ensures id in m.0 && check(m.0[id], id).None?
    decreases |ids|
  {
    if id != ids[0] {
      TransferChecked(MakeTransfer(m, ids[0], receiver, check).value, ids[1..], receiver, check, id);
    }
  }

  lemma {:induction false} ApproveChecked(tokens: TokenArray, ids: seq<TokenID>, operator: ActorID, approve: bool,
                                          check: Check, id: TokenID)
    requires ApproveAll(tokens, ids, operator, approve, check).Ok? && id in ids
    ensures id in tokens && check(tokens[id], id).None?
    decreases |ids|
  {
    if id != ids[0] {
      ApproveChecked(tokens[ids[0] := WithOperator(tokens[ids[0]], operator, approve)], ids[1..],
                     operator, approve, check, id);
    }
  }

  // ---------------------------------------------------------------- authority

  function ActingFor(c: Call): ActorID {
    match c
    case BurnFrom(_, operator, _) => operator
    case TransferFrom(_, operator, _, _) => operator
    case _ => c.owner
  }

  /** Before the call, `actor` owns the token or is an operator of its owner's account or of the token. */
  predicate MayMove(n: Nft, id: TokenID, actor: ActorID)
    requires id in n.Tokens()
  {
    var data := n.Tokens()[id];
    actor == data.owner || actor in OperatorsOf(n.Owners(), data.owner) || actor in data.operators
  }

  /** In every state, agreeing or not, and unless a wrapped counter mints over it: a token changes hands,
      loses its operators or is burnt only in a call that names it, by somebody who may move it;
      operators are only changed by the owner. */
  lemma Authority(n: Nft, c: Call, id: TokenID)
    requires id in n.Tokens() && !MintsAt(n, c, id)
    ensures var tokens' := After(n, c).Tokens();
            id !in tokens' || tokens'[id].owner != n.Tokens()[id].owner ==>
              MovesOrBurns(c, id) && MayMove(n, id, ActingFor(c))
    ensures var tokens' := After(n, c).Tokens();
            id in tokens' && tokens'[id].operators != n.Tokens()[id].operators ==>
              || (MovesOrBurns(c, id) && MayMove(n, id, ActingFor(c)))
              || ((c.Approve? || c.Revoke?) && id in c.ids && c.owner == n.Tokens()[id].owner)
  {
    if Step(n, c).Ok? {
      StepTokens(n, c, id);
      var m := (n.Tokens(), n.Owners());
      match c
      case Burn(owner, ids) => DeleteAllExactly(n.Tokens(), ids, OwnsCheck(owner));
      case BurnFrom(owner, operator, ids) =>
        var account := IsAccountOperator(n.Owners(), owner, operator).value;
        DeleteAllExactly(n.Tokens(), ids, OperatorCheck(owner, operator, account));
      case Transfer(owner, recipient, ids) =>
        if id in ids { TransferChecked(m, ids, recipient, OwnsCheck(owner), id); }
      case TransferFrom(owner, operator, recipient, ids) =>
        var account := IsAccountOperator(n.Owners(), owner, operator).value;
        if id in ids { TransferChecked(m, ids, recipient, OperatorCheck(owner, operator, account), id); }
      case Approve(owner, operator, ids) =>
        if id in ids { ApproveChecked(n.Tokens(), ids, operator, true, OwnsCheck(owner), id); }
      case Revoke(owner, operator, ids) =>
        if id in ids { ApproveChecked(n.Tokens(), ids, operator, false, OwnsCheck(owner), id); }
      case _ =>
    }
  }

  /** A mint over a live token, on the other hand, takes it from its owner: the token is the mint's
      owner's, and approved to nobody. */
  lemma MintTakesOver(n: Nft, c: Call, id: TokenID)
    requires MintsAt(n, c, id)
    ensures id in After(n, c).Tokens()
    ensures After(n, c).Tokens()[id].owner == c.owner && After(n, c).Tokens()[id].operators == {}
  {
    MintAllExactly(n.Tokens(), n.next, c.owner, c.metadatas, id);
  }

  /** Who approved `p` for the token, if the last successful call that concerns the two was an
      approval: a later mint at the id, transfer or burn of the token, or revocation of `p`, cancels it. */
  function Approver(calls: seq<Call>, id: TokenID, p: ActorID): Option<ActorID>
    decreases |calls|
  {
    if calls == [] then None
    else
      var before, c := calls[..|calls| - 1], calls[|calls| - 1];
      if Step(Exec(before), c).Err? then Approver(before, id, p)
      else if MovesOrBurns(c, id) || MintsAt(Exec(before), c, id) then None
      else if ChangesOperator(c, id, p) then (if c.Approve? then Some(c.owner) else None)
      else Approver(before, id, p)
  }

  /** In every run whatever, an actor is listed as operator of a live token exactly when it was approved
      since the token was minted or last moved, and the approver is the current owner. */
  lemma {:induction false} OperatorsAreApproved(calls: seq<Call>, id: TokenID, p: ActorID)
    requires id in Exec(calls).Tokens()
    ensures var data := Exec(calls).Tokens()[id];
            Approver(calls, id, p) == if p in data.operators then Some(data.owner) else None
    decreases |calls|
  {
    if calls != [] {
      var before, c := calls[..|calls| - 1], calls[|calls| - 1];
      var n := Exec(before);
      if Step(n, c).Err? {
        OperatorsAreApproved(before, id, p);
      } else if MintsAt(n, c, id) {
        MintTakesOver(n, c, id);
      } else {
        StepTokens(n, c, id);
        OperatorsAreApproved(before, id, p);
        match c
        case Approve(owner, operator, ids) =>
          if id in ids { ApproveChecked(n.Tokens(), ids, operator, true, OwnsCheck(owner), id); }
        case Revoke(owner, operator, ids) =>
          if id in ids { ApproveChecked(n.Tokens(), ids, operator, false, OwnsCheck(owner), id); }
        case _ =>
      }
    }
  }

  // ---------------------------------------------------------------- ids and metadata

  /** The ids a batch of `count` gets. */
  function BatchIds(next: U64, count: nat): seq<TokenID> {
    seq(count, k requires 0 <= k < count => Add64(next, k))
  }

  /** All the ids ever given out, in order. */
  function GivenIds(calls: seq<Call>): seq<TokenID>
    decreases |calls|
  {
    if calls == [] then []
    else
      var before := calls[..|calls| - 1];
      GivenIds(before) + BatchIds(Exec(before).next, Mints(calls[|calls| - 1]))
  }

  /** In every run the k-th token minted gets the id k, modulo 2^64. */
  lemma {:induction false} GivenIdsExactly(calls: seq<Call>)
    ensures |GivenIds(calls)| == Minted(calls)
    ensures forall k | 0 <= k < Minted(calls) :: GivenIds(calls)[k] == k % TWO64
    decreases |calls|
  {
    if calls != [] {
      var before := calls[..|calls| - 1];
      GivenIdsExactly(before);
      CountersExactly(before);
      BatchIdsExactly(Minted(before), Mints(calls[|calls| - 1]));
      assert GivenIds(calls) == GivenIds(before) + BatchIds(Exec(before).next, Mints(calls[|calls| - 1]));
    }
  }

  /** After `minted` tokens a batch gets the ids from there on, modulo 2^64. */
  lemma BatchIdsExactly(minted: nat, count: nat)
    ensures var ids := BatchIds(minted % TWO64, count);
            |ids| == count && forall k | minted <= k < minted + count :: ids[k - minted] == k % TWO64
  {
    forall k | minted <= k < minted + count
      ensures BatchIds(minted % TWO64, count)[k - minted] == k % TWO64
    {
      WrapAdd(minted, k - minted);
    }
  }

  /** No id is given out twice if and only if at most 2^64 tokens are minted. */
  lemma IdsAreGivenOnceExactly(calls: seq<Call>)
    ensures Distinct(GivenIds(calls)) <==> Minted(calls) <= TWO64
  {
    GivenIdsExactly(calls);
    var ids := GivenIds(calls);
    if Minted(calls) > TWO64 {
      assert ids[0] == 0 % TWO64 && ids[TWO64] == TWO64 % TWO64;
    } else {
      forall i, j | 0 <= i < j < |ids| ensures ids[i] != ids[j] {
        assert ids[i] == i && ids[j] == j;
      }
    }
  }

  lemma WritesIsBatchId(next: U64, count: nat, id: TokenID)
    ensures Writes(next, count, id) <==> id in BatchIds(next, count)
  {
    if Writes(next, count, id) {
      var k :| 0 <= k < count && Add64(next, k) == id;
      assert BatchIds(next, count)[k] == id;
    }
  }

  /** The ids given out by the calls from the k-th on. */
  function GivenSince(calls: seq<Call>, k: nat): seq<TokenID>
    requires k <= |calls|
    decreases |calls|
  {
    if k == |calls| then []
    else
      var before := calls[..|calls| - 1];
      GivenSince(before, k) + BatchIds(Exec(before).next, Mints(calls[|calls| - 1]))
  }

  lemma {:induction false} GivenIdsSplit(calls: seq<Call>, k: nat)
    requires k <= |calls|
    ensures GivenIds(calls) == GivenIds(calls[..k]) + GivenSince(calls, k)
    decreases |calls|
  {
    if k == |calls| {
      assert calls[..k] == calls;
    } else {
      var before := calls[..|calls| - 1];
      assert before[..k] == calls[..k];
      GivenIdsSplit(before, k);
    }
  }

  /** In every run whatever, a token that is live now and whose id was not given out since some earlier
      moment was live then too, with the same metadata. */
  lemma {:induction false} TokensComeFromMints(calls: seq<Call>, k: nat, id: TokenID)
    requires k <= |calls| && id in Exec(calls).Tokens() && id !in GivenSince(calls, k)
    ensures id in Exec(calls[..k]).Tokens()
    ensures Exec(calls).Tokens()[id].metadata == Exec(calls[..k]).Tokens()[id].metadata
    decreases |calls|
  {
    if k == |calls| {
      assert calls[..k] == calls;
    } else {
      var before, c := calls[..|calls| - 1], calls[|calls| - 1];
      assert before[..k] == calls[..k];
      WritesIsBatchId(Exec(before).next, Mints(c), id);
      if Step(Exec(before), c).Ok? {
        StepTokens(Exec(before), c, id);
      }
      TokensComeFromMints(before, k, id);
    }
  }

  /** In a run that gives no id out twice, an id that was given out and is not live is never live again,
      and a token that is live at two moments has the same metadata at both. */
  lemma IdsAreNeverReused(calls: seq<Call>, k: nat, id: TokenID)
    requires k <= |calls| && Distinct(GivenIds(calls))
    requires id in GivenIds(calls[..k]) && id in Exec(calls).Tokens()
    ensures id in Exec(calls[..k]).Tokens()
    ensures Exec(calls).Tokens()[id].metadata == Exec(calls[..k]).Tokens()[id].metadata
  {
    GivenIdsSplit(calls, k);
    NotInBoth(GivenIds(calls[..k]), GivenSince(calls, k), id);
    TokensComeFromMints(calls, k, id);
  }

  lemma NotInBoth(early: seq<TokenID>, late: seq<TokenID>, id: TokenID)
    requires Distinct(early + late) && id in early
    ensures id !in late
  {
    var ids := early + late;
    var i :| 0 <= i < |early| && early[i] == id;
    forall j | 0 <= j < |late| ensures late[j] != id {
      assert ids[i] == early[i] && ids[|early| + j] == late[j];
    }
  }

  // ---------------------------------------------------------------- runs within the counter

  ghost predicate AllBelow(tokens: TokenArray, bound: int) {
    forall id | id in tokens :: id < bound
  }

  lemma BelowFits(n: Nft, count: nat)
    requires AllBelow(n.Tokens(), n.next) && n.supply <= n.next && n.next + count < TWO64
    ensures Fits(n, count)
  {
    forall k | 0 <= k < count ensures Add64(n.next, k) !in n.Tokens() {
      assert Add64(n.next, k) == n.next + k;
    }
  }

  /** Every run that mints fewer than 2^64 tokens is safe, and its next id is above every live one. */
  lemma {:induction false} FewMintsAreSafe(calls: seq<Call>)
    requires Minted(calls) < TWO64
    ensures AllSafe(calls) && Exec(calls).next == Minted(calls)
    ensures AllBelow(Exec(calls).Tokens(), Minted(calls))
    decreases |calls|
  {
    if calls != [] {
      var before, c := calls[..|calls| - 1], calls[|calls| - 1];
      FewMintsAreSafe(before);
      SupplyExactly(before);
      AllSafeSnoc(calls);
      StepBelow(Exec(before), c);
    }
  }

  lemma StepBelow(n: Nft, c: Call)
    requires AllBelow(n.Tokens(), n.next) && n.supply <= n.next && n.next + Mints(c) < TWO64
    ensures Safe(n, c) && After(n, c).next == n.next + Mints(c)
    ensures AllBelow(After(n, c).Tokens(), n.next + Mints(c))
  {
    if c.Mint? {
      BelowFits(n, |c.metadatas|);
    }
    StepCounters(n, c);
    forall id | id in After(n, c).Tokens() ensures id < n.next + Mints(c) {
      StepComesFrom(n, c, id);
    }
  }

  /** A token that is live after a call was live before or has one of the next ids. */
  lemma StepComesFrom(n: Nft, c: Call, id: TokenID)
    requires id in After(n, c).Tokens() && n.next + Mints(c) < TWO64
    ensures id in n.Tokens() || id < n.next + Mints(c)
  {
    if MintsAt(n, c, id) {
      var k :| 0 <= k < |c.metadatas| && Add64(n.next, k) == id;
      assert id == n.next + k;
    } else if Step(n, c).Ok? {
      StepTokens(n, c, id);
    }
  }

  /** A run mints fewer than 2^64 tokens if and only if no token is ever given the last u64 id. */
  lemma LastIdExactly(calls: seq<Call>)
    ensures Minted(calls) < TWO64 <==> TWO64 - 1 !in GivenIds(calls)
  {
    GivenIdsExactly(calls);
    var ids := GivenIds(calls);
    if Minted(calls) < TWO64 {
      forall k | 0 <= k < |ids| ensures ids[k] != TWO64 - 1 {
        assert ids[k] == k;
      }
    } else {
      assert ids[TWO64 - 1] == TWO64 - 1;
    }
  }

  // ---------------------------------------------------------------- a run that mints over a live token

  /** `count` calls that mint one token each. */
  function OneByOne(count: nat): seq<Call> {
    seq(count, _ => Mint(7, [""]))
  }

  lemma {:induction false} OneByOneCounts(count: nat)
    ensures Minted(OneByOne(count)) == count && Burnt(OneByOne(count)) == 0
    decreases count
  {
    if count > 0 {
      assert OneByOne(count)[..count - 1] == OneByOne(count - 1);
      OneByOneCounts(count - 1);
    }
  }

  lemma OneByOneStep(count: nat)
    ensures Exec(OneByOne(count + 1)) == After(Exec(OneByOne(count)), Mint(7, [""]))
  {
    assert OneByOne(count + 1) == OneByOne(count) + [Mint(7, [""])];
    ExecSnoc(OneByOne(count), Mint(7, [""]));
  }

  lemma OneByOneNext(count: nat)
    requires count < TWO64
    ensures Exec(OneByOne(count)).next == count
  {
    OneByOneCounts(count);
    CountersExactly(OneByOne(count));
  }

  lemma {:induction false} OneByOneMints(count: nat)
    requires count < TWO64
    ensures OwnsUpTo(Exec(OneByOne(count)).Tokens(), 7, count)
    decreases count
  {
    if count > 0 {
      OneByOneMints(count - 1);
      OneByOneNext(count - 1);
      OneByOneStep(count - 1);
      MintOne(Exec(OneByOne(count - 1)));
    }
  }

  predicate OwnsUpTo(tokens: TokenArray, owner: ActorID, count: nat) {
    forall id | 0 <= id < count :: id in tokens && tokens[id].owner == owner
  }

  lemma MintOne(n: Nft)
    requires OwnsUpTo(n.Tokens(), 7, n.next)
    ensures OwnsUpTo(After(n, Mint(7, [""])).Tokens(), 7, n.next + 1)
  {
    forall id | 0 <= id < n.next + 1
      ensures id in After(n, Mint(7, [""])).Tokens() && After(n, Mint(7, [""])).Tokens()[id].owner == 7
    {
      MintAllExactly(n.Tokens(), n.next, 7, [""], id);
      assert Add64(n.next, 0) == n.next;
    }
  }

  lemma BurnTwo(n: Nft)
    requires Agrees(n) && forall id | 0 <= id < 3 :: id in n.Tokens() && n.Tokens()[id].owner == 7
    ensures var n' := After(n, Burn(7, [1, 2]));
            Agrees(n') && n'.next == n.next && n'.supply == n.supply - 2 && 0 in n'.Tokens()
  {
    var burn := Burn(7, [1, 2]);
    DeleteAllExactly(n.Tokens(), [1, 2], OwnsCheck(7));
    ChecksImplyOwner(7, 7, false);
    BurnInvariantFailure(n, 7, [1, 2], OwnsCheck(7));
    assert Step(n, burn).Ok?;
    StepSupply(n, burn);
    StepTokens(n, burn, 0);
  }

  /** After 2^64 - 1 tokens have been minted one by one and two of them burnt, the supply has room for
      two more, but the second one takes token 0 from its owner and breaks the agreement. */
  lemma CollidingMint(receiver: ActorID)
    ensures var n := Exec(OneByOne(TWO64 - 1) + [Burn(7, [1, 2])]);
            var n' := After(n, Mint(receiver, ["", ""]));
            && Agrees(n) && n.supply + 2 < TWO64 && !Agrees(n')
            && 0 in n.Tokens() && 0 in n'.Tokens() && n'.Tokens()[0].owner == receiver
  {
    var calls := OneByOne(TWO64 - 1);
    OneByOneMints(TWO64 - 1);
    OneByOneCounts(TWO64 - 1);
    FewMintsAreSafe(calls);
    SupplyExactly(calls);
    ExecSnoc(calls, Burn(7, [1, 2]));
    BurnTwo(Exec(calls));
    MintCollides(Exec(calls + [Burn(7, [1, 2])]), receiver);
  }

  lemma MintCollides(n: Nft, receiver: ActorID)
    requires Agrees(n) && n.next == TWO64 - 1 && 0 in n.Tokens()
    ensures var n' := After(n, Mint(receiver, ["", ""]));
            !Agrees(n') && 0 in n'.Tokens() && n'.Tokens()[0].owner == receiver
  {
    var mint := Mint(receiver, ["", ""]);
    assert Add64(n.next, 1) == 0;
    StepAgreesExactly(n, mint);
    MintTakesOver(n, mint, 0);
  }

  // ---------------------------------------------------------------- an empty entry

  /** The first account approval of an account stores an entry that says nothing. */
  lemma EmptyEntryStored()
    ensures Exec([ApproveAccount(7, 1)]).Owners() == map[7 := OwnerData(0, {})]
    ensures OwnerData(0, {}).Empty()
  {
    var first: seq<Call> := [ApproveAccount(7, 1)];
    assert first == [] + first;
    ExecSnoc([], first[0]);
  }
}
