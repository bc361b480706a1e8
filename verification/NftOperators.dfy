/**
 Enumeration of operators, of a token or of an account.  The cursor holds a position: a page skips
 that many operators and takes as many as the limit says.  What a walk over all pages lists is settled
 once for any sequence of operator sets, and then carried over to the two enumerations.
 */
module NftOperators {
  import opened Basics
  import opened NftLedgers
  import opened NftPages
  import NftRuns

  /** The actors run on a machine whose `usize` has 32 bits; u64 values are truncated to it. */
  const USIZE: int := 0x1_0000_0000

  function Min(a: nat, b: nat): nat {
    if a <= b then a else b
  }

  /** Skips `from` elements and takes `count`. */
  function Slice(q: seq<nat>, from: nat, count: nat): set<nat> {
    Elements(q[Min(from, |q|)..Min(from + count, |q|)])
  }

  function Rest(q: seq<nat>, from: nat): set<nat> {
    Elements(q[Min(from, |q|)..])
  }

  /** Start and limit are truncated for the slice; the next position is computed in u64. */
  function OperatorPage(ops: set<ActorID>, start: nat, limit: nat): (set<ActorID>, Option<nat>) {
    (Slice(Sorted(ops), start % USIZE, limit % USIZE),
     if |ops| > Add64(start, limit) then Some(Add64(start, limit)) else None)
  }

  function Tail(ops: set<ActorID>, start: nat): set<ActorID> {
    Rest(Sorted(ops), start)
  }

  lemma NoTruncation(start: nat, limit: nat)
    requires start < USIZE && limit < USIZE
    ensures start % USIZE == start && limit % USIZE == limit && Add64(start, limit) == start + limit
  {
  }

  /** A page as it would be without truncation. */
  function PlainPage(ops: set<ActorID>, start: nat, limit: nat): (set<ActorID>, Option<nat>) {
    (Slice(Sorted(ops), start, limit), if |ops| > start + limit then Some(start + limit) else None)
  }

  lemma OperatorPageIs(ops: set<ActorID>, start: nat, limit: nat)
    requires start < USIZE && limit < USIZE
    ensures OperatorPage(ops, start, limit) == PlainPage(ops, start, limit)
  {
    NoTruncation(start, limit);
  }

  lemma SliceThenRest(q: seq<nat>, start: nat, limit: nat)
    requires Ascending(q)
    ensures |q| <= start + limit ==> Slice(q, start, limit) == Rest(q, start)
    ensures |q| > start + limit ==>
      && Slice(q, start, limit) + Rest(q, start + limit) == Rest(q, start)
      && Slice(q, start, limit) * Rest(q, start + limit) == {}
  {
    if |q| > start + limit {
      SliceSplits(q, start, start + limit);
    } else {
      assert q[Min(start, |q|)..|q|] == q[Min(start, |q|)..];
    }
  }

  /** The whole operator set. */
  lemma FullTail(ops: set<ActorID>)
    ensures Tail(ops, 0) == ops
  {
    SortedFacts(ops);
    assert Sorted(ops)[Min(0, |Sorted(ops)|)..] == Sorted(ops);
  }

  lemma PrefixIsAll(ops: set<nat>, k: nat)
    requires k <= |Sorted(ops)|
    ensures Elements(Sorted(ops)[..k]) == ops <==> |ops| <= k
  {
    SortedFacts(ops);
    var all := Sorted(ops);
    if k < |all| {
      AscendingSplits(all, k);
      assert all[k] in ops && all[k] !in Elements(all[..k]);
    } else {
      assert all[..k] == all;
    }
  }

  // ---------------------------------------------------------------- walks by position

  /** Follows positions from page to page; `sets[i]` are the operators at the time of the i-th page. */
  function PositionWalk(sets: seq<set<ActorID>>, start: nat, limit: nat): Walked
    decreases |sets|
  {
    if sets == [] then Unfinished
    else
      match OperatorPage(sets[0], start, limit)
      case (page, None) => Finished([page])
      case (page, Some(next)) => Prepend(page, PositionWalk(sets[1..], next, limit))
  }

  function PlainWalk(sets: seq<set<ActorID>>, start: nat, limit: nat): Walked
    decreases |sets|
  {
    if sets == [] then Unfinished
    else if |sets[0]| > start + limit then
      Prepend(Slice(Sorted(sets[0]), start, limit), PlainWalk(sets[1..], start + limit, limit))
    else Finished([Slice(Sorted(sets[0]), start, limit)])
  }

  predicate AllFit(sets: seq<set<ActorID>>) {
    forall i | 0 <= i < |sets| :: |sets[i]| <= USIZE
  }

  /** While positions and limit fit a usize nothing is truncated. */
  lemma {:induction false} PositionWalkIs(sets: seq<set<ActorID>>, start: nat, limit: nat)
    requires start < USIZE && limit < USIZE && AllFit(sets)
    ensures PositionWalk(sets, start, limit) == PlainWalk(sets, start, limit)
    decreases |sets|
  {
    if sets != [] {
      OperatorPageIs(sets[0], start, limit);
      if |sets[0]| > start + limit {
        PositionWalkIs(sets[1..], start + limit, limit);
      }
    }
  }

  predicate AllAre(sets: seq<set<ActorID>>, ops: set<ActorID>) {
    forall i | 0 <= i < |sets| :: sets[i] == ops
  }

  /** A page and what it leaves to the pages after it. */
  lemma PageThenTail(ops: set<ActorID>, start: nat, limit: nat)
    ensures var page := Slice(Sorted(ops), start, limit);
            && (|ops| <= start + limit ==> page == Tail(ops, start))
            && (|ops| > start + limit ==>
                  && page + Tail(ops, start + limit) == Tail(ops, start)
                  && page * Tail(ops, start + limit) == {})
  {
    SortedFacts(ops);
    SliceThenRest(Sorted(ops), start, limit);
  }

  /** While the operators stay as they are, a walk that ends lists all of them from its start on, each
      on one page only. */
  lemma {:induction false} SteadyWalkEnumerates(sets: seq<set<ActorID>>, ops: set<ActorID>, start: nat, limit: nat)
    requires AllAre(sets, ops) && PlainWalk(sets, start, limit).Finished?
    ensures Union(PlainWalk(sets, start, limit).pages) == Tail(ops, start)
    ensures Sizes(PlainWalk(sets, start, limit).pages) == |Tail(ops, start)|
    decreases |sets|
  {
    var page := Slice(Sorted(ops), start, limit);
    PageThenTail(ops, start, limit);
    assert sets[0] == ops;
    if |ops| > start + limit {
      SteadyWalkEnumerates(sets[1..], ops, start + limit, limit);
      AddDisjointPage(page, PlainWalk(sets[1..], start + limit, limit).pages,
                      Tail(ops, start + limit), Tail(ops, start));
    } else {
      AddDisjointPage(page, [], {}, page);
      assert [page] + [] == [page];
    }
  }

  lemma AddDisjointPage(page: set<nat>, pages: seq<set<nat>>, others: set<nat>, both: set<nat>)
    requires Union(pages) == others && Sizes(pages) == |others|
    requires page + others == both && page * others == {}
    ensures Union([page] + pages) == both && Sizes([page] + pages) == |both|
  {
    AddPage(page, pages);
  }

  /** And with a positive limit it ends, within the pages that the operators fill. */
  lemma {:induction false} SteadyWalkFinishes(sets: seq<set<ActorID>>, ops: set<ActorID>, start: nat, limit: nat)
    requires sets != [] && AllAre(sets, ops)
    requires limit >= 1 && |ops| <= start + |sets| * limit
    ensures PlainWalk(sets, start, limit).Finished?
    decreases |sets|
  {
    if |ops| > start + limit {
      assert |sets| * limit == limit + (|sets| - 1) * limit;
      assert |sets| > 1;
      SteadyWalkFinishes(sets[1..], ops, start + limit, limit);
    }
  }

  /** A limit that does not fit a usize is truncated, and there is only one page. */
  lemma TruncatedWalk(sets: seq<set<ActorID>>, limit: U64)
    requires sets != [] && |sets[0]| <= USIZE <= limit
    ensures var all := Sorted(sets[0]);
            PositionWalk(sets, 0, limit) == Finished([Elements(all[..Min(limit % USIZE, |all|)])])
  {
    SortedFacts(sets[0]);
    assert Add64(0, limit) == limit;
    var all := Sorted(sets[0]);
    var k := Min(limit % USIZE, |all|);
    assert all[0..k] == all[..k];
    assert OperatorPage(sets[0], 0, limit) == (Elements(all[..k]), None);
  }

  /** A complete walk lists all operators if and only if the limit fits a usize or its truncation still
      covers them: a larger limit may silently drop operators. */
  lemma SteadyWalkExactly(sets: seq<set<ActorID>>, ops: set<ActorID>, limit: U64)
    requires sets != [] && AllAre(sets, ops) && |ops| <= USIZE
    requires PositionWalk(sets, 0, limit).Finished?
    ensures Union(PositionWalk(sets, 0, limit).pages) == ops <==> limit < USIZE || |ops| <= limit % USIZE
  {
    if limit < USIZE {
      PositionWalkIs(sets, 0, limit);
      SteadyWalkEnumerates(sets, ops, 0, limit);
      FullTail(ops);
    } else {
      TruncatedWalk(sets, limit);
      SortedFacts(ops);
      var k := Min(limit % USIZE, |Sorted(ops)|);
      AddPage(Elements(Sorted(ops)[..k]), []);
      assert [Elements(Sorted(ops)[..k])] + [] == [Elements(Sorted(ops)[..k])];
      PrefixIsAll(ops, k);
    }
  }

  /** A limit of 2^32 is truncated to 0: the only page of the walk is empty, and the operator is dropped. */
  lemma OperatorDropped()
    ensures PositionWalk([{1}], 0, USIZE) == Finished([{}])
  {
    TruncatedWalk([{1}], USIZE);
    SortedFacts({1});
    assert Min(USIZE % USIZE, |Sorted({1})|) == 0;
    assert Elements(Sorted({1})[..0]) == {};
  }

  // ---------------------------------------------------------------- walks over changing operators

  predicate Below(s: set<nat>, t: set<nat>) {
    forall x, y | x in s && y in t :: x < y
  }

  /** What a reader of the pages relies on: they hold the elements of `target` in ascending order, so
      each of them once. */
  predicate ListsInOrder(pages: seq<set<nat>>, target: set<nat>) {
    Union(pages) == target && InOrder(pages)
  }

  predicate InOrder(pages: seq<set<nat>>) {
    pages == [] || (Below(pages[0], Union(pages[1..])) && InOrder(pages[1..]))
  }

  /** On every page of the walk the operators at the positions it covers are those of `ops`, and the
      walk does not stop short of `ops`. */
  predicate SameSlices(sets: seq<set<ActorID>>, ops: set<ActorID>, start: nat, limit: nat)
    decreases |sets|
  {
    && sets != []
    && Slice(Sorted(sets[0]), start, limit) == Slice(Sorted(ops), start, limit)
    && if |sets[0]| > start + limit then SameSlices(sets[1..], ops, start + limit, limit)
       else |ops| <= start + limit
  }

  lemma SliceFacts(q: seq<nat>, start: nat, limit: nat)
    requires Ascending(q)
    ensures Below(Slice(q, start, limit), Rest(q, start + limit))
    ensures |q| >= start + limit ==> |Slice(q, start, limit)| == limit
    ensures |Slice(q, start, limit)| <= limit
    ensures |Rest(q, start)| == |q| - Min(start, |q|)
  {
    var from, to := Min(start, |q|), Min(start + limit, |q|);
    AscendingPart(q, from, to);
    AscendingPart(q, from, |q|);
    assert q[from..|q|] == q[from..];
    LowerBelowUpper(q, from, to);
  }

  lemma LowerBelowUpper(q: seq<nat>, from: nat, to: nat)
    requires Ascending(q) && from <= to <= |q|
    ensures Below(Elements(q[from..to]), Elements(q[to..]))
  {
    forall x, y | x in q[from..to] && y in q[to..] ensures x < y {
      var i :| 0 <= i < to - from && q[from..to][i] == x;
      var j :| 0 <= j < |q| - to && q[to..][j] == y;
      assert x == q[from + i] && y == q[to + j];
    }
  }

  lemma AscendingPart(q: seq<nat>, from: nat, to: nat)
    requires Ascending(q) && from <= to <= |q|
    ensures |Elements(q[from..to])| == to - from
  {
    var part := q[from..to];
    forall i, j | 0 <= i < j < |part| ensures part[i] < part[j] {
      assert part[i] == q[from + i] && part[j] == q[from + j];
    }
    AscendingCount(part, Elements(part));
  }

  /** Of two ways to cut a set in a lower and an upper part, one lower part contains the other. */
  lemma LowerPartsCompare(a: set<nat>, b: set<nat>, c: set<nat>, d: set<nat>)
    requires a + b == c + d && Below(a, b) && Below(c, d)
    ensures a <= c || c <= a
  {
    if x :| x in a && x !in c {
      forall y | y in c ensures y in a {
        assert x in c + d && y in a + b;
      }
    }
  }

  /** The lower part of a set is determined by its size. */
  lemma LowerPart(a: set<nat>, b: set<nat>, c: set<nat>, d: set<nat>)
    requires a + b == c + d && Below(a, b) && Below(c, d) && |a| == |c|
    ensures a == c && b == d
  {
    LowerPartsCompare(a, b, c, d);
    if a <= c {
      SameSize(a, c);
    }
    if c <= a {
      SameSize(c, a);
    }
    assert b == (a + b) - a && d == (c + d) - c;
  }

  lemma InOrderCons(page: set<nat>, pages: seq<set<nat>>, target: set<nat>)
    ensures ListsInOrder([page] + pages, target)
       <==> page + Union(pages) == target && Below(page, Union(pages)) && InOrder(pages)
  {
    AddPage(page, pages);
    assert ([page] + pages)[1..] == pages;
  }

  /** A full page and what comes after it make up the rest of `ops`, in order, only in one way. */
  lemma FullPage(now: set<ActorID>, ops: set<ActorID>, start: nat, limit: nat, others: set<nat>)
    requires |now| > start + limit
    ensures var page := Slice(Sorted(now), start, limit);
            page + others == Tail(ops, start) && Below(page, others)
            <==> page == Slice(Sorted(ops), start, limit) && others == Tail(ops, start + limit)
  {
    SortedFacts(now);
    SliceFacts(Sorted(now), start, limit);
    SortedFacts(ops);
    PageThenRest(Sorted(ops), start, limit, Slice(Sorted(now), start, limit), others);
  }

  lemma PageThenRest(q: seq<nat>, start: nat, limit: nat, page: set<nat>, others: set<nat>)
    requires Ascending(q) && |page| == limit
    ensures page + others == Rest(q, start) && Below(page, others)
       <==> page == Slice(q, start, limit) && others == Rest(q, start + limit)
  {
    SliceThenRest(q, start, limit);
    SliceFacts(q, start, limit);
    if |q| <= start + limit {
      assert Rest(q, start + limit) == {};
    }
    if page + others == Rest(q, start) && Below(page, others) {
      SubsetCount(page, Rest(q, start));
      LowerPart(page, others, Slice(q, start, limit), Rest(q, start + limit));
    }
  }

  lemma LastPage(now: set<ActorID>, ops: set<ActorID>, start: nat, limit: nat)
    ensures var page := Slice(Sorted(now), start, limit);
            page == Tail(ops, start) <==> page == Slice(Sorted(ops), start, limit) && |ops| <= start + limit
  {
    SortedFacts(now);
    SliceFacts(Sorted(now), start, limit);
    SortedFacts(ops);
    SliceFacts(Sorted(ops), start, limit);
    SliceThenRest(Sorted(ops), start, limit);
  }

  lemma ListsCons(now: set<ActorID>, ops: set<ActorID>, start: nat, limit: nat, pages: seq<set<nat>>)
    requires |now| > start + limit
    ensures ListsInOrder([Slice(Sorted(now), start, limit)] + pages, Tail(ops, start))
       <==> Slice(Sorted(now), start, limit) == Slice(Sorted(ops), start, limit)
            && ListsInOrder(pages, Tail(ops, start + limit))
  {
    InOrderCons(Slice(Sorted(now), start, limit), pages, Tail(ops, start));
    FullPage(now, ops, start, limit, Union(pages));
  }

  lemma ListsLast(now: set<ActorID>, ops: set<ActorID>, start: nat, limit: nat)
    ensures ListsInOrder([Slice(Sorted(now), start, limit)], Tail(ops, start))
       <==> Slice(Sorted(now), start, limit) == Slice(Sorted(ops), start, limit) && |ops| <= start + limit
  {
    var page := Slice(Sorted(now), start, limit);
    assert [page] + [] == [page];
    InOrderCons(page, [], Tail(ops, start));
    LastPage(now, ops, start, limit);
  }

  /** However the operators change between pages, a walk that ends lists `ops` from its start on, in
      order, if and only if the change left every slice that was read as it is in `ops`. */
  lemma {:induction false} ChangedWalkExactly(sets: seq<set<ActorID>>, ops: set<ActorID>, start: nat, limit: nat)
    requires PlainWalk(sets, start, limit).Finished?
    ensures ListsInOrder(PlainWalk(sets, start, limit).pages, Tail(ops, start))
       <==> SameSlices(sets, ops, start, limit)
    decreases |sets|
  {
    if |sets[0]| > start + limit {
      ChangedWalkExactly(sets[1..], ops, start + limit, limit);
      ListsCons(sets[0], ops, start, limit, PlainWalk(sets[1..], start + limit, limit).pages);
    } else {
      ListsLast(sets[0], ops, start, limit);
    }
  }

  /** For two pages around a change, even without regard to order: they list the first set, each
      operator once, if and only if the second set has the same operators at the positions of the
      second page. */
  lemma TwoPagesExactly(first: set<ActorID>, second: set<ActorID>, limit: nat)
    requires limit < |first| <= 2 * limit && limit < USIZE
    ensures var (page1, next) := OperatorPage(first, 0, limit);
            && next == Some(limit)
            && var page2 := OperatorPage(second, limit, limit).0;
               (page1 + page2 == first && page1 * page2 == {}
                <==> Slice(Sorted(second), limit, limit) == Slice(Sorted(first), limit, limit))
  {
    OperatorPageIs(first, 0, limit);
    OperatorPageIs(second, limit, limit);
    PageThenTail(first, 0, limit);
    PageThenTail(first, limit, limit);
    FullTail(first);
    CutInTwo(Slice(Sorted(first), 0, limit), Tail(first, limit), Slice(Sorted(second), limit, limit), first);
  }

  lemma CutInTwo(page: set<nat>, left: set<nat>, other: set<nat>, all: set<nat>)
    requires page + left == all && page * left == {}
    ensures page + other == all && page * other == {} <==> other == left
  {
    if page + other == all && page * other == {} {
      forall x ensures x in other <==> x in left {
        assert x !in page * other && x !in page * left;
        assert x in page + other <==> x in page + left;
      }
    }
  }

  // ---------------------------------------------------------------- operators of a token

  function TokenOperatorPage(root: Cid<TokenArray>, id: TokenID, cursor: Option<Cursor>, limit: nat)
    : Result<(set<ActorID>, Option<Cursor>), NftError>
  {
    if cursor.Some? && cursor.value.root != root then Err(InvalidCursor)
    else if id !in root.content then Err(TokenNotFound(id))
    else
      var (operators, next) := OperatorPage(root.content[id].operators, StartOf(cursor), limit);
      Ok((operators, NextCursor(root, next)))
  }

  function OperatorWalk(roots: seq<Cid<TokenArray>>, id: TokenID, cursor: Option<Cursor>, limit: nat): Walked
    decreases |roots|
  {
    if roots == [] then Unfinished
    else
      match TokenOperatorPage(roots[0], id, cursor, limit)
      case Err(e) => Refused(e)
      case Ok((ops, None)) => Finished([ops])
      case Ok((ops, next)) => Prepend(ops, OperatorWalk(roots[1..], id, next, limit))
  }

  function Repeat(ops: set<ActorID>, n: nat): seq<set<ActorID>> {
    seq(n, _ => ops)
  }

  /** The cursor is a first one or was made for this root. */
  predicate Fresh(cursor: Option<Cursor>, root: Cid<TokenArray>) {
    cursor.Some? ==> cursor.value.root == root
  }

  /** Unless it is refused, the walk goes by position over the operators that the first page saw. */
  lemma {:induction false} OperatorWalkIs(roots: seq<Cid<TokenArray>>, id: TokenID, cursor: Option<Cursor>, limit: nat)
    requires roots != [] && id in roots[0].content
    requires !OperatorWalk(roots, id, cursor, limit).Refused?
    ensures OperatorWalk(roots, id, cursor, limit)
         == PositionWalk(Repeat(roots[0].content[id].operators, |roots|), StartOf(cursor), limit)
    decreases |roots|
  {
    var ops := roots[0].content[id].operators;
    assert Repeat(ops, |roots|)[1..] == Repeat(ops, |roots| - 1);
    var next := OperatorPage(ops, StartOf(cursor), limit).1;
    assert TokenOperatorPage(roots[0], id, cursor, limit).value.1 == NextCursor(roots[0], next);
    if next.Some? && roots[1..] != [] {
      OperatorWalkIs(roots[1..], id, Some(Cursor(roots[0], next.value)), limit);
    }
  }

  /** A page is refused exactly for a cursor of another root or a token that is not live. */
  lemma TokenOperatorPageRefused(root: Cid<TokenArray>, id: TokenID, cursor: Option<Cursor>, limit: nat)
    ensures TokenOperatorPage(root, id, cursor, limit) == Err(InvalidCursor) <==> !Fresh(cursor, root)
    ensures TokenOperatorPage(root, id, cursor, limit) == Err(TokenNotFound(id)) <==>
      Fresh(cursor, root) && id !in root.content
    ensures TokenOperatorPage(root, id, cursor, limit).Ok? <==> Fresh(cursor, root) && id in root.content
  {
  }

  /** After the first page a walk is refused only because the tokens changed between two pages, and
      only in these words. */
  lemma {:induction false} OperatorWalkRefused(roots: seq<Cid<TokenArray>>, id: TokenID, cursor: Option<Cursor>,
                                               limit: nat)
    requires roots != [] && id in roots[0].content && Fresh(cursor, roots[0])
    requires OperatorWalk(roots, id, cursor, limit).Refused?
    ensures OperatorWalk(roots, id, cursor, limit).error == InvalidCursor
    ensures exists i | 0 < i < |roots| :: roots[i] != roots[i - 1]
    decreases |roots|
  {
    var next := TokenOperatorPage(roots[0], id, cursor, limit).value.1;
    assert next.Some? && next.value.root == roots[0] && roots[1..] != [];
    if roots[1] == roots[0] {
      OperatorWalkRefused(roots[1..], id, next, limit);
      var i :| 0 < i < |roots| - 1 && roots[1..][i] != roots[1..][i - 1];
      assert roots[i + 1] != roots[i];
    }
  }

  /** However the state changes between pages, a walk that ends has listed the operators that the first
      page saw: all of them from its start on, each on one page only. */
  lemma OperatorWalkEnumerates(roots: seq<Cid<TokenArray>>, id: TokenID, cursor: Option<Cursor>, limit: nat)
    requires roots != [] && OperatorWalk(roots, id, cursor, limit).Finished?
    requires id in roots[0].content && |roots[0].content[id].operators| <= USIZE
    requires limit < USIZE && (StartOf(cursor) == 0 || StartOf(cursor) < |roots[0].content[id].operators|)
    ensures var pages, ops := OperatorWalk(roots, id, cursor, limit).pages, roots[0].content[id].operators;
            Union(pages) == Tail(ops, StartOf(cursor)) && Sizes(pages) == |Tail(ops, StartOf(cursor))|
  {
    var ops := roots[0].content[id].operators;
    OperatorWalkIs(roots, id, cursor, limit);
    PositionWalkIs(Repeat(ops, |roots|), StartOf(cursor), limit);
    SteadyWalkEnumerates(Repeat(ops, |roots|), ops, StartOf(cursor), limit);
  }

  /** While the tokens stay as they are, a walk with a positive limit ends within the pages that the
      operators fill. */
  lemma {:induction false} OperatorWalkFinishes(roots: seq<Cid<TokenArray>>, id: TokenID, cursor: Option<Cursor>,
                                                limit: U64)
    requires roots != [] && id in roots[0].content && Fresh(cursor, roots[0])
    requires forall i | 0 < i < |roots| :: roots[i] == roots[i - 1]
    requires var ops, start := roots[0].content[id].operators, StartOf(cursor);
             && |ops| <= USIZE && |ops| <= start + |roots| * limit
             && 1 <= limit && (start == 0 || (start < |ops| && limit < USIZE))
    ensures OperatorWalk(roots, id, cursor, limit).Finished?
  {
    var ops := roots[0].content[id].operators;
    if OperatorWalk(roots, id, cursor, limit).Refused? {
      OperatorWalkRefused(roots, id, cursor, limit);
      assert false;
    }
    OperatorWalkIs(roots, id, cursor, limit);
    if limit < USIZE {
      PositionWalkIs(Repeat(ops, |roots|), StartOf(cursor), limit);
      SteadyWalkFinishes(Repeat(ops, |roots|), ops, StartOf(cursor), limit);
    } else {
      TruncatedWalk(Repeat(ops, |roots|), limit);
    }
  }

  /** The truncation theorem for the operators of a token. */
  lemma OperatorWalkExactly(roots: seq<Cid<TokenArray>>, id: TokenID, limit: U64)
    requires roots != [] && id in roots[0].content && OperatorWalk(roots, id, None, limit).Finished?
    requires |roots[0].content[id].operators| <= USIZE
    ensures var ops := roots[0].content[id].operators;
            Union(OperatorWalk(roots, id, None, limit).pages) == ops <==> limit < USIZE || |ops| <= limit % USIZE
  {
    var ops := roots[0].content[id].operators;
    OperatorWalkIs(roots, id, None, limit);
    SteadyWalkExactly(Repeat(ops, |roots|), ops, limit);
  }

  // ---------------------------------------------------------------- operators of an account

  function AccountOperatorPage(n: Nft, owner: ActorID, cursor: Option<Cursor>, limit: nat)
    : (set<ActorID>, Option<Cursor>)
  {
    if owner !in n.Owners() then ({}, None)
    else
      var (operators, next) := OperatorPage(n.Owners()[owner].operators, StartOf(cursor), limit);
      (operators, NextCursor(n.tokenData, next))
  }

  /** Follows cursors from page to page; `states[i]` is the ledger at the time of the i-th page. */
  function AccountWalk(states: seq<Nft>, owner: ActorID, cursor: Option<Cursor>, limit: nat): Walked
    decreases |states|
  {
    if states == [] then Unfinished
    else
      match AccountOperatorPage(states[0], owner, cursor, limit)
      case (ops, None) => Finished([ops])
      case (ops, next) => Prepend(ops, AccountWalk(states[1..], owner, next, limit))
  }

  /** The operators of `owner` at the time of each page. */
  function OperatorsAt(states: seq<Nft>, owner: ActorID): seq<set<ActorID>> {
    seq(|states|, i requires 0 <= i < |states| => OperatorsOf(states[i].Owners(), owner))
  }

  /** The walk goes by position over whatever the operators are at the time: it is never refused. */
  lemma {:induction false} AccountWalkIs(states: seq<Nft>, owner: ActorID, cursor: Option<Cursor>, limit: nat)
    ensures AccountWalk(states, owner, cursor, limit)
         == PositionWalk(OperatorsAt(states, owner), StartOf(cursor), limit)
    ensures !AccountWalk(states, owner, cursor, limit).Refused?
    decreases |states|
  {
    if states != [] {
      assert OperatorsAt(states, owner)[1..] == OperatorsAt(states[1..], owner);
      AbsentPage(StartOf(cursor), limit);
      var next := OperatorPage(OperatorsOf(states[0].Owners(), owner), StartOf(cursor), limit).1;
      assert AccountOperatorPage(states[0], owner, cursor, limit).1 == NextCursor(states[0].tokenData, next);
      if next.Some? {
        AccountWalkIs(states[1..], owner, Some(Cursor(states[0].tokenData, next.value)), limit);
      }
    }
  }

  lemma AbsentPage(start: nat, limit: nat)
    ensures OperatorPage({}, start, limit) == ({}, None)
  {
    SortedFacts({});
    assert Sorted({}) == [];
    assert Slice([], start % USIZE, limit % USIZE) == {};
  }

  /** While the account's operators stay as they are, whatever else changes, a walk that ends lists all
      of them from its start on, each on one page only. */
  lemma AccountWalkEnumerates(states: seq<Nft>, owner: ActorID, ops: set<ActorID>, cursor: Option<Cursor>, limit: nat)
    requires forall n | n in states :: OperatorsOf(n.Owners(), owner) == ops
    requires |ops| <= USIZE && limit < USIZE && (StartOf(cursor) == 0 || StartOf(cursor) < |ops|)
    requires AccountWalk(states, owner, cursor, limit).Finished?
    ensures var pages := AccountWalk(states, owner, cursor, limit).pages;
            Union(pages) == Tail(ops, StartOf(cursor)) && Sizes(pages) == |Tail(ops, StartOf(cursor))|
  {
    AccountWalkIs(states, owner, cursor, limit);
    PositionWalkIs(OperatorsAt(states, owner), StartOf(cursor), limit);
    SteadyWalkEnumerates(OperatorsAt(states, owner), ops, StartOf(cursor), limit);
  }

  /** And with a positive limit it ends, within the pages that the operators fill. */
  lemma AccountWalkFinishes(states: seq<Nft>, owner: ActorID, ops: set<ActorID>, cursor: Option<Cursor>, limit: U64)
    requires states != [] && forall n | n in states :: OperatorsOf(n.Owners(), owner) == ops
    requires var start := StartOf(cursor);
             && |ops| <= USIZE && |ops| <= start + |states| * limit
             && 1 <= limit && (start == 0 || (start < |ops| && limit < USIZE))
    ensures AccountWalk(states, owner, cursor, limit).Finished?
  {
    AccountWalkIs(states, owner, cursor, limit);
    var sets := OperatorsAt(states, owner);
    if limit < USIZE {
      PositionWalkIs(sets, StartOf(cursor), limit);
      SteadyWalkFinishes(sets, ops, StartOf(cursor), limit);
    } else {
      TruncatedWalk(sets, limit);
    }
  }

  /** The truncation theorem for the operators of an account. */
  lemma AccountWalkExactly(states: seq<Nft>, owner: ActorID, ops: set<ActorID>, limit: U64)
    requires states != [] && forall n | n in states :: OperatorsOf(n.Owners(), owner) == ops
    requires |ops| <= USIZE && AccountWalk(states, owner, None, limit).Finished?
    ensures Union(AccountWalk(states, owner, None, limit).pages) == ops <==> limit < USIZE || |ops| <= limit % USIZE
  {
    AccountWalkIs(states, owner, None, limit);
    SteadyWalkExactly(OperatorsAt(states, owner), ops, limit);
  }

  /** However the account's operators change between pages, a walk that ends lists those that the first
      page saw, in order, if and only if every slice it read is the same as in them. */
  lemma AccountWalkChangedExactly(states: seq<Nft>, owner: ActorID, limit: nat)
    requires states != [] && AccountWalk(states, owner, None, limit).Finished?
    requires limit < USIZE && forall n | n in states :: |OperatorsOf(n.Owners(), owner)| <= USIZE
    ensures var ops := OperatorsOf(states[0].Owners(), owner);
            ListsInOrder(AccountWalk(states, owner, None, limit).pages, ops)
            <==> SameSlices(OperatorsAt(states, owner), ops, 0, limit)
  {
    var sets := OperatorsAt(states, owner);
    AccountWalkIs(states, owner, None, limit);
    forall i | 0 <= i < |sets| ensures |sets[i]| <= USIZE {
      assert states[i] in states;
    }
    PositionWalkIs(sets, 0, limit);
    ChangedWalkExactly(sets, OperatorsOf(states[0].Owners(), owner), 0, limit);
    FullTail(OperatorsOf(states[0].Owners(), owner));
  }

  /** Account 7 approves operators 1 and 2; its first approval only creates its entry. */
  const APPROVALS := [ApproveAccount(7, 1), ApproveAccount(7, 1), ApproveAccount(7, 2)]

  /** It then replaces operator 1 by operator 3. */
  const REPLACEMENT := [RevokeAccount(7, 1), ApproveAccount(7, 3)]

  lemma ApprovalsMade()
    ensures NftRuns.Exec(APPROVALS) == EMPTY_NFT.(ownerData := Cid(map[7 := OwnerData(0, {1, 2})]))
  {
    var a, b := [ApproveAccount(7, 1)], [ApproveAccount(7, 1), ApproveAccount(7, 1)];
    assert a == [] + a && b == a + [ApproveAccount(7, 1)] && APPROVALS == b + [ApproveAccount(7, 2)];
    NftRuns.ExecSnoc([], ApproveAccount(7, 1));
    NftRuns.ExecSnoc(a, ApproveAccount(7, 1));
    NftRuns.ExecSnoc(b, ApproveAccount(7, 2));
    var none: set<ActorID> := {};
    assert none + {1} == {1} && {1} + {2} == {1, 2};
    ApproveMore(NftRuns.Exec(a), none, 1);
    ApproveMore(NftRuns.Exec(b), {1}, 2);
  }

  lemma ReplacementMade()
    ensures NftRuns.Exec(APPROVALS + REPLACEMENT)
         == EMPTY_NFT.(ownerData := Cid(map[7 := OwnerData(0, {2, 3})]))
  {
    var d := APPROVALS + [RevokeAccount(7, 1)];
    assert APPROVALS + REPLACEMENT == d + [ApproveAccount(7, 3)];
    ApprovalsMade();
    NftRuns.ExecSnoc(APPROVALS, RevokeAccount(7, 1));
    NftRuns.ExecSnoc(d, ApproveAccount(7, 3));
    assert {1, 2} - {1} == {2} && {2} + {3} == {2, 3};
    assert NftRuns.Exec(d).Owners() == map[7 := OwnerData(0, {2})];
    ApproveMore(NftRuns.Exec(d), {2}, 3);
  }

  /** A run that makes the enumeration mix two states: read around that change, pages of one list 1 and
      3, the operators of neither state, and the root in the cursor is the same throughout. */
  lemma AccountWalkMixesStates()
    ensures var n1, n2 := NftRuns.Exec(APPROVALS), NftRuns.Exec(APPROVALS + REPLACEMENT);
            && OperatorsOf(n1.Owners(), 7) == {1, 2} && OperatorsOf(n2.Owners(), 7) == {2, 3}
            && n1.tokenData == n2.tokenData
            && AccountWalk([n1, n2], 7, None, 1) == Finished([{1}, {3}])
  {
    var n1, n2 := NftRuns.Exec(APPROVALS), NftRuns.Exec(APPROVALS + REPLACEMENT);
    ApprovalsMade();
    ReplacementMade();
    AccountWalkIs([n1, n2], 7, None, 1);
    assert OperatorsAt([n1, n2], 7) == [{1, 2}, {2, 3}];
    MixedPages();
  }

  lemma MixedPages()
    ensures PositionWalk([{1, 2}, {2, 3}], 0, 1) == Finished([{1}, {3}])
  {
    SortedPairs(1, 2);
    SortedPairs(2, 3);
    var rest: seq<set<ActorID>> := [{2, 3}];
    assert [{1, 2}, {2, 3}][1..] == rest;
    assert PositionWalk(rest, 1, 1) == Finished([{3}]);
  }

  lemma ApproveMore(n: Nft, ops: set<ActorID>, p: ActorID)
    requires n.Owners() == map[7 := OwnerData(0, ops)]
    ensures NftRuns.After(n, ApproveAccount(7, p)) == n.(ownerData := Cid(map[7 := OwnerData(0, ops + {p})]))
  {
    assert n.Owners()[7 := OwnerData(0, ops + {p})] == map[7 := OwnerData(0, ops + {p})];
  }

  lemma SortedPairs(a: nat, b: nat)
    requires a < b
    ensures OperatorPage({a, b}, 0, 1) == ({a}, Some(1)) && OperatorPage({a, b}, 1, 1) == ({b}, None)
  {
    SortedIs({a, b}, [a, b]);
    assert Sorted({a, b}) == [a, b] && |{a, b}| == 2;
    assert [a, b][0..1] == [a] && [a, b][1..2] == [b];
    assert Elements([a]) == {a} && Elements([b]) == {b};
  }
}
