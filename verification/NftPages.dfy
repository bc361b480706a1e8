/**
 Enumeration page by page.  A cursor names the root it was made for and the next key to visit; the
 array is visited in ascending key order.
 */
module NftPages {
  import opened Basics
  import opened NftLedgers

  datatype Cursor = Cursor(root: Cid<TokenArray>, index: nat)

  /** The elements in ascending order. */
  function Sorted(s: set<nat>): (r: seq<nat>)
    decreases |s|
  {
    if s == {} then []
    else
      var k := Least(s);
      [k] + Sorted(s - {k})
  }

  function Least(s: set<nat>): (k: nat)
    requires s != {}
    ensures k in s && forall j | j in s :: k <= j
  {
    LeastExists(s);
    var k :| IsLeast(s, k);
    k
  }

  predicate IsLeast(s: set<nat>, k: nat) {
    k in s && forall j | j in s :: k <= j
  }

  lemma LeastExists(s: set<nat>)
    requires s != {}
    ensures exists k :: IsLeast(s, k)
  {
    var x :| x in s;
    LeastBelow(s, x);
  }

  lemma {:induction false} LeastBelow(s: set<nat>, x: nat)
    requires x in s
    ensures exists k :: IsLeast(s, k)
    decreases x
  {
    if y :| y in s && y < x {
      LeastBelow(s, y);
    } else {
      assert IsLeast(s, x);
    }
  }

  function From(tokens: TokenArray, start: nat): set<nat> {
    set id | id in tokens && start <= id
  }

  /** The first `limit` keys from `start` on, and the next key after them. */
  function Range(tokens: TokenArray, start: nat, limit: nat): (r: (seq<TokenID>, Option<TokenID>))
    ensures forall id | id in r.0 :: id in tokens
  {
    var keys := Sorted(From(tokens, start));
    SortedFacts(From(tokens, start));
    if |keys| <= limit then (keys, None)
    else
      assert forall id | id in keys[..limit] :: id in keys;
      (keys[..limit], Some(keys[limit]))
  }

  function Kept(tokens: TokenArray, ids: seq<TokenID>, keep: TokenData -> bool): set<TokenID> {
    set id | id in ids && id in tokens && keep(tokens[id])
  }

  function NextCursor(root: Cid<TokenArray>, key: Option<TokenID>): Option<Cursor> {
    match key
    case Some(k) => Some(Cursor(root, k))
    case None => None
  }

  function Page(root: Cid<TokenArray>, keep: TokenData -> bool, cursor: Option<Cursor>, limit: nat)
    : Result<(set<TokenID>, Option<Cursor>), NftError>
  {
    if cursor.Some? && cursor.value.root != root then Err(InvalidCursor)
    else
      var (visited, next) := Range(root.content, if cursor.Some? then cursor.value.index else 0, limit);
      Ok((Kept(root.content, visited, keep), NextCursor(root, next)))
  }

  ghost predicate Ascending(s: seq<nat>) {
    forall i, j | 0 <= i < j < |s| :: s[i] < s[j]
  }

  lemma {:induction false} SortedFacts(s: set<nat>)
    ensures |Sorted(s)| == |s| && Ascending(Sorted(s))
    ensures forall x :: x in Sorted(s) <==> x in s
    decreases |s|
  {
    if s != {} {
      var k := Least(s);
      SortedFacts(s - {k});
      forall i, j | 0 <= i < j < |Sorted(s)| ensures Sorted(s)[i] < Sorted(s)[j] {
        assert Sorted(s)[j] == Sorted(s - {k})[j - 1];
        assert Sorted(s)[j] in s - {k};
      }
    }
  }

  // ---------------------------------------------------------------- walks

  function Any(): TokenData -> bool {
    (data: TokenData) => true
  }

  function OwnedBy(owner: ActorID): TokenData -> bool {
    (data: TokenData) => data.owner == owner
  }

  function OperableBy(operator: ActorID): TokenData -> bool {
    (data: TokenData) => operator in data.operators
  }

  datatype Walked = Finished(pages: seq<set<nat>>) | Refused(error: NftError) | Unfinished

  function Prepend(page: set<nat>, w: Walked): Walked {
    match w
    case Finished(pages) => Finished([page] + pages)
    case _ => w
  }

  /** Follows cursors from page to page; `roots[i]` is the token array at the time of the i-th page. */
  function Walk(roots: seq<Cid<TokenArray>>, keep: TokenData -> bool, cursor: Option<Cursor>, limit: nat): Walked
    decreases |roots|
  {
    if roots == [] then Unfinished
    else
      match Page(roots[0], keep, cursor, limit)
      case Err(e) => Refused(e)
      case Ok((ids, None)) => Finished([ids])
      case Ok((ids, next)) => Prepend(ids, Walk(roots[1..], keep, next, limit))
  }

  function Union(pages: seq<set<nat>>): set<nat> {
    if pages == [] then {} else pages[0] + Union(pages[1..])
  }

  function Sizes(pages: seq<set<nat>>): nat {
    if pages == [] then 0 else |pages[0]| + Sizes(pages[1..])
  }

  /** The tokens from `start` on that meet `keep`. */
  function Wanted(tokens: TokenArray, start: nat, keep: TokenData -> bool): set<TokenID> {
    set id | id in tokens && start <= id && keep(tokens[id])
  }

  function StartOf(cursor: Option<Cursor>): nat {
    if cursor.Some? then cursor.value.index else 0
  }

  lemma KeysSplit(tokens: TokenArray, start: nat, k: nat)
    requires k < |Sorted(From(tokens, start))|
    ensures var keys := Sorted(From(tokens, start));
            && keys[k] in From(tokens, start)
            && (forall id :: id in keys[..k] <==> id in From(tokens, start) && id < keys[k])
            && |keys| == k + |From(tokens, keys[k])|
  {
    var keys := Sorted(From(tokens, start));
    SortedFacts(From(tokens, start));
    assert keys[k] in keys;
    AscendingSplits(keys, k);
    AscendingCount(keys[k..], From(tokens, keys[k]));
  }

  /** A page visits the keys from `start` up to the next key, or all the rest. */
  lemma RangeExactly(tokens: TokenArray, start: nat, limit: nat)
    ensures var (visited, next) := Range(tokens, start, limit);
            && (next.None? ==> forall id :: id in visited <==> id in tokens && start <= id)
            && (next.Some? ==>
                  && (forall id :: id in visited <==> id in tokens && start <= id < next.value)
                  && next.value in tokens && start <= next.value
                  && |From(tokens, start)| == limit + |From(tokens, next.value)|)
  {
    SortedFacts(From(tokens, start));
    if |Sorted(From(tokens, start))| > limit {
      KeysSplit(tokens, start, limit);
    }
  }

  lemma RangeSplits(tokens: TokenArray, start: nat, limit: nat, keep: TokenData -> bool)
    ensures var (visited, next) := Range(tokens, start, limit);
            && (next.None? ==> Kept(tokens, visited, keep) == Wanted(tokens, start, keep))
            && (next.Some? ==>
                  && Kept(tokens, visited, keep) + Wanted(tokens, next.value, keep) == Wanted(tokens, start, keep)
                  && Kept(tokens, visited, keep) * Wanted(tokens, next.value, keep) == {})
  {
    RangeExactly(tokens, start, limit);
  }

  /** Everything before position `k` is below everything from `k` on. */
  lemma AscendingSplits(q: seq<nat>, k: nat)
    requires Ascending(q) && k < |q|
    ensures Ascending(q[k..])
    ensures forall x :: x in q[..k] <==> x in q && x < q[k]
    ensures forall x :: x in q[k..] <==> x in q && x >= q[k]
  {
    forall i, j | 0 <= i < j < |q| - k ensures q[k..][i] < q[k..][j] {
      assert q[k + i] < q[k + j];
    }
    forall x | x in q[..k] ensures x < q[k] {
      var i :| 0 <= i < k && q[i] == x;
    }
    forall x | x in q[k..] ensures x >= q[k] {
      var i :| 0 <= i < |q| - k && q[k..][i] == x;
      assert i > 0 ==> q[k] < q[k + i];
    }
    assert q == q[..k] + q[k..];
  }

  function Elements(q: seq<nat>): set<nat> {
    set x | x in q
  }

  lemma SliceSplits(q: seq<nat>, from: nat, mid: nat)
    requires Ascending(q) && from <= mid < |q|
    ensures Elements(q[from..]) == Elements(q[from..mid]) + Elements(q[mid..])
    ensures Elements(q[from..mid]) * Elements(q[mid..]) == {}
  {
    assert q[from..] == q[from..mid] + q[mid..];
    AscendingSplits(q, mid);
    assert q[from..mid] == q[..mid][from..];
    forall x | x in q[from..mid] ensures x in q[..mid] {
    }
  }

  lemma {:induction false} AscendingCount(q: seq<nat>, s: set<nat>)
    requires Ascending(q) && forall x :: x in q <==> x in s
    ensures |q| == |s|
    decreases |q|
  {
    if q == [] {
      assert s == {};
    } else {
      var rest := q[1..];
      assert q == [q[0]] + rest;
      forall i | 0 <= i < |rest| ensures rest[i] > q[0] {
        assert q[0] < q[i + 1];
      }
      assert Ascending(rest) by {
        forall i, j | 0 <= i < j < |rest| ensures rest[i] < rest[j] {
          assert q[i + 1] < q[j + 1];
        }
      }
      forall x ensures x in rest <==> x in s - {q[0]} {
      }
      AscendingCount(rest, s - {q[0]});
    }
  }

  lemma AddPage(page: set<nat>, pages: seq<set<nat>>)
    ensures Union([page] + pages) == page + Union(pages)
    ensures Sizes([page] + pages) == |page| + Sizes(pages)
    ensures page * Union(pages) == {} ==> |page + Union(pages)| == |page| + |Union(pages)|
  {
    assert ([page] + pages)[1..] == pages;
  }

  /** However the state changes between pages, a walk that comes to its end has enumerated the tokens
      wanted from the state its first page saw: every one of them, and each on one page only. */
  lemma {:induction false} WalkEnumerates(roots: seq<Cid<TokenArray>>, keep: TokenData -> bool,
                                          cursor: Option<Cursor>, limit: nat)
    requires roots != [] && Walk(roots, keep, cursor, limit).Finished?
    ensures var pages := Walk(roots, keep, cursor, limit).pages;
            && Union(pages) == Wanted(roots[0].content, StartOf(cursor), keep)
            && Sizes(pages) == |Wanted(roots[0].content, StartOf(cursor), keep)|
    decreases |roots|
  {
    var tokens, start := roots[0].content, StartOf(cursor);
    RangeSplits(tokens, start, limit, keep);
    var (ids, next) := Page(roots[0], keep, cursor, limit).value;
    if next.None? {
      AddPage(ids, []);
      assert [ids] + [] == [ids];
    } else {
      assert roots[1..] != [];
      WalkEnumerates(roots[1..], keep, next, limit);
      assert roots[1] == roots[0];
      var rest := Walk(roots[1..], keep, next, limit).pages;
      AddPage(ids, rest);
    }
  }

  /** While the tokens stay as they are, a walk with a positive limit ends, and no later than the
      number of pages that the keys fill. */
  lemma {:induction false} WalkFinishes(roots: seq<Cid<TokenArray>>, keep: TokenData -> bool,
                                        cursor: Option<Cursor>, limit: nat)
    requires limit >= 1 && roots != []
    requires forall root | root in roots :: root == roots[0]
    requires cursor.Some? ==> cursor.value.root == roots[0]
    requires |From(roots[0].content, StartOf(cursor))| <= |roots| * limit
    ensures Walk(roots, keep, cursor, limit).Finished?
    decreases |roots|
  {
    RangeExactly(roots[0].content, StartOf(cursor), limit);
    var (ids, next) := Page(roots[0], keep, cursor, limit).value;
    if next.Some? {
      assert |roots| * limit == limit + (|roots| - 1) * limit;
      assert next.value.index in From(roots[0].content, next.value.index);
      assert |roots| > 1;
      forall root | root in roots[1..] ensures root == roots[0] {
        assert root in roots;
      }
      assert roots[1..][0] in roots[1..];
      WalkFinishes(roots[1..], keep, next, limit);
    }
  }

  /** A walk is refused only because the tokens changed between two pages, and only in these words. */
  lemma {:induction false} WalkRefused(roots: seq<Cid<TokenArray>>, keep: TokenData -> bool,
                                       cursor: Option<Cursor>, limit: nat)
    requires roots != [] && (cursor.Some? ==> cursor.value.root == roots[0])
    requires Walk(roots, keep, cursor, limit).Refused?
    ensures Walk(roots, keep, cursor, limit).error == InvalidCursor
    ensures exists i | 0 < i < |roots| :: roots[i] != roots[i - 1]
    decreases |roots|
  {
    var next := Page(roots[0], keep, cursor, limit).value.1;
    assert next.Some? && next.value.root == roots[0] && roots[1..] != [];
    if roots[1] == roots[0] {
      WalkRefused(roots[1..], keep, next, limit);
      var i :| 0 < i < |roots| - 1 && roots[1..][i] != roots[1..][i - 1];
      assert roots[i + 1] != roots[i];
    }
  }

  /** A full walk of the tokens of an account lists as many as its balance says. */
  lemma OwnedWalkMatchesBalance(n: Nft, roots: seq<Cid<TokenArray>>, owner: ActorID, limit: nat)
    requires Agrees(n) && roots != [] && roots[0] == n.tokenData
    requires Walk(roots, OwnedBy(owner), None, limit).Finished?
    ensures var pages := Walk(roots, OwnedBy(owner), None, limit).pages;
            Union(pages) == Owned(n.Tokens(), owner) && Sizes(pages) == BalanceOf(n.Owners(), owner)
  {
    WalkEnumerates(roots, OwnedBy(owner), None, limit);
    assert Wanted(n.Tokens(), 0, OwnedBy(owner)) == Owned(n.Tokens(), owner);
    assert BalanceOf(n.Owners(), owner) == |Owned(n.Tokens(), owner)|;
  }

  /** A page is refused exactly for a cursor of another root. */
  lemma PageRefused(root: Cid<TokenArray>, keep: TokenData -> bool, cursor: Option<Cursor>, limit: nat)
    ensures Page(root, keep, cursor, limit).Err? <==> cursor.Some? && cursor.value.root != root
    ensures Page(root, keep, cursor, limit).Err? ==> Page(root, keep, cursor, limit).error == InvalidCursor
  {
  }

  /** A full walk of all tokens lists every live one once. */
  lemma FullWalkListsAll(n: Nft, roots: seq<Cid<TokenArray>>, limit: nat)
    requires roots != [] && roots[0] == n.tokenData && Walk(roots, Any(), None, limit).Finished?
    ensures var pages := Walk(roots, Any(), None, limit).pages;
            (forall id :: id in Union(pages) <==> id in n.Tokens()) && Sizes(pages) == |n.Tokens()|
  {
    WalkEnumerates(roots, Any(), None, limit);
    assert Wanted(n.Tokens(), 0, Any()) == n.Tokens().Keys;
  }

  /** A full walk of an operator's tokens lists, once, those that list it as their operator. */
  lemma OperatorWalkListsApproved(n: Nft, roots: seq<Cid<TokenArray>>, operator: ActorID, limit: nat)
    requires roots != [] && roots[0] == n.tokenData && Walk(roots, OperableBy(operator), None, limit).Finished?
    ensures var pages := Walk(roots, OperableBy(operator), None, limit).pages;
            && (forall id :: id in Union(pages) <==> id in n.Tokens() && operator in n.Tokens()[id].operators)
            && Sizes(pages) == |Union(pages)|
  {
    WalkEnumerates(roots, OperableBy(operator), None, limit);
  }

  lemma {:induction false} SortedIs(s: set<nat>, q: seq<nat>)
    requires Ascending(q) && forall x :: x in q <==> x in s
    ensures Sorted(s) == q
    decreases |q|
  {
    if q == [] {
      assert s == {};
    } else {
      var rest := q[1..];
      assert q == [q[0]] + rest;
      forall x | x in s ensures q[0] <= x {
        var i :| 0 <= i < |q| && q[i] == x;
      }
      assert q[0] in s;
      assert Least(s) == q[0];
      forall i | 0 <= i < |rest| ensures rest[i] > q[0] {
        assert q[0] < q[i + 1];
      }
      assert Ascending(rest) by {
        forall i, j | 0 <= i < j < |rest| ensures rest[i] < rest[j] {
          assert q[i + 1] < q[j + 1];
        }
      }
      SortedIs(s - {q[0]}, rest);
    }
  }
}
