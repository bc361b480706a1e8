/**
 Addresses, their resolution to actor ids, and the part of the system calls the token
 libraries use: the account table, `send` to an address, and the root of the actor's state.
 */
module Addresses {
  import opened Basics

  datatype Address =
    | ID(id: ActorID)
    | Secp256k1(key: seq<bv8>)
    | Actor(hash: seq<bv8>)
    | BLS(key: seq<bv8>)
    | Delegated(namespace: ActorID, subaddress: seq<bv8>)
  {
    function Protocol(): nat {
      match this
      case ID(_) => 0
      case Secp256k1(_) => 1
      case Actor(_) => 2
      case BLS(_) => 3
      case Delegated(_, _) => 4
    }

    /** Sending to an address of this kind creates an account for it. */
    predicate Instantiable() {
      Secp256k1? || BLS? || Delegated?
    }
  }

  datatype MessagingError =
    | Syscall
    | AddressNotResolved(address: Address)
    | AddressNotInitialized(address: Address)

  /** The instantiated accounts, the next actor id to allocate, and whether the next send fails. */
  datatype AddressTable = AddressTable(ids: map<Address, ActorID>, next: ActorID, abortNext: bool)
  {
    function Resolve(a: Address): Option<ActorID> {
      if a.ID? then Some(a.id)
      else if a in ids then Some(ids[a])
      else None
    }

    /** Two addresses name the same actor, without creating accounts for them. */
    predicate Same(a: Address, b: Address) {
      if a.Protocol() == b.Protocol() then a == b
      else Resolve(a).Some? && Resolve(a) == Resolve(b)
    }

    /** Resolves `a`, creating an account for it where that is needed and possible. */
    function Init(a: Address): (r: (AddressTable, Result<ActorID, MessagingError>)) {
      match Resolve(a)
      case Some(id) => (this, Ok(id))
      case None =>
        if abortNext then (this.(abortNext := false), Err(Syscall))
        else if a.Instantiable() then (AddressTable(ids[a := next], next + 1, false), Ok(next))
        else (this, Err(AddressNotInitialized(a)))
    }

    /** The address names an actor, or an account can be created for it. */
    predicate Reaches(a: Address) {
      Resolve(a).Some? || (a.Instantiable() && !abortNext)
    }

    /** Within one protocol no two addresses share an actor, and only allocated ids are in use. */
    ghost predicate Consistent() {
      && (forall a, b | a in ids && b in ids && a.Protocol() == b.Protocol() && ids[a] == ids[b] :: a == b)
      && (forall a | a in ids :: ids[a] < next)
    }

    /** The accounts of `this` are those of `t`, and the ids added since were allocated in between. */
    ghost predicate Extends(t: AddressTable) {
      && t.next <= next
      && (forall a | a in t.ids :: a in ids && ids[a] == t.ids[a])
      && (forall a | a in ids && a !in t.ids :: a.Instantiable() && t.next <= ids[a] < next)
      && (!t.abortNext ==> !abortNext)
    }
  }

  /** Resolving or creating an account keeps the table consistent and never rebinds an address. */
  lemma InitKeepsTable(t: AddressTable, a: Address)
    requires t.Consistent()
    ensures t.Init(a).0.Consistent() && t.Init(a).0.Extends(t)
    ensures t.Init(a).1.Ok? ==> t.Init(a).0.Resolve(a) == Some(t.Init(a).1.value)
    ensures forall b | t.Resolve(b).Some? :: t.Init(a).0.Resolve(b) == t.Resolve(b)
  {
    var t' := t.Init(a).0;
    forall x, y | x in t'.ids && y in t'.ids && x.Protocol() == y.Protocol() && t'.ids[x] == t'.ids[y]
      ensures x == y
    {
      assert x in t.ids || x == a;
      assert y in t.ids || y == a;
    }
  }

  /** `Same` decides actor identity for every mix of address forms that resolve. */
  lemma SameIsIdentity(t: AddressTable, a: Address, b: Address)
    requires t.Consistent()
    requires t.Resolve(a).Some? && t.Resolve(b).Some?
    ensures t.Same(a, b) <==> t.Resolve(a) == t.Resolve(b)
  {
    if a.Protocol() == b.Protocol() && t.Resolve(a) == t.Resolve(b) {
      if a.ID? {
        assert a == b;
      } else {
        assert t.ids[a] == t.ids[b];
      }
    }
  }

  /** At most these addresses got accounts; all others resolve as before. */
  ghost predicate OnlyOpens(t: AddressTable, t': AddressTable, accounts: set<Address>) {
    forall b :: b !in accounts || t.Resolve(b).Some? ==> t'.Resolve(b) == t.Resolve(b)
  }

  /** For any two addresses: they are the same if they are equal, or if both resolve, to one actor. */
  lemma SameExactly(t: AddressTable, a: Address, b: Address)
    requires t.Consistent()
    ensures t.Same(a, b) <==> a == b || (t.Resolve(a).Some? && t.Resolve(a) == t.Resolve(b))
  {
    if t.Resolve(a).Some? && t.Resolve(b).Some? {
      SameIsIdentity(t, a, b);
    }
  }

  /** Exactly when resolving or creating succeeds, which id results, what is created, and the error. */
  lemma InitExactly(t: AddressTable, a: Address)
    ensures var (t', r) := t.Init(a);
            && (r.Ok? <==> t.Reaches(a))
            && (t.Resolve(a).Some? ==> t' == t && r.Ok? && Some(r.value) == t.Resolve(a))
            && (t.Resolve(a).None? && r.Ok? ==>
                  r.value == t.next && t' == AddressTable(t.ids[a := t.next], t.next + 1, false))
            && (r.Err? ==> t' == t.(abortNext := false))
            && (r.Err? ==> r.error == if t.abortNext then Syscall else AddressNotInitialized(a))
  {
  }

  /** The same for two addresses, one after the other. */
  lemma InitTwiceExactly(t: AddressTable, a: Address, b: Address)
    ensures var (t1, r1) := t.Init(a);
            var (t2, r2) := t1.Init(b);
            && OnlyOpens(t, t1, {a, b}) && OnlyOpens(t, t2, {a, b})
            && (r1.Ok? && r2.Ok? <==> t.Reaches(a) && t.Reaches(b))
            && (r1.Ok? <==> t.Reaches(a))
            && (r1.Ok? ==> t1.Resolve(a) == Some(r1.value) && t2.Resolve(a) == Some(r1.value))
            && (r2.Ok? ==> t2.Resolve(b) == Some(r2.value))
  {
    InitExactly(t, a);
    InitExactly(t.Init(a).0, b);
  }

  lemma ExtendsTransitive(t0: AddressTable, t1: AddressTable, t2: AddressTable)
    requires t1.Extends(t0) && t2.Extends(t1)
    ensures t2.Extends(t0)
  {
    forall a | a in t2.ids && a !in t0.ids
      ensures a.Instantiable() && t0.next <= t2.ids[a] < t2.next
    {
      assert a in t1.ids ==> t2.ids[a] == t1.ids[a];
    }
  }

  /** System calls, with the root CID of the receiving actor's state. */
  class Syscalls<R> {
    /** The actor whose code is running. */
    const actorId: ActorID
    var root: R
    /** Every root that was ever set; restoring the state does not shorten it. */
    ghost var written: seq<R>
    var ids: map<Address, ActorID>
    var nextActorId: ActorID
    var abortNextSend: bool

    constructor (actorId: ActorID, root: R, table: AddressTable)
      ensures this.actorId == actorId && this.root == root && written == [] && Table() == table
    {
      this.actorId, this.root, written := actorId, root, [];
      ids, nextActorId, abortNextSend := table.ids, table.next, table.abortNext;
    }

    function Table(): AddressTable
      reads this
    {
      AddressTable(ids, nextActorId, abortNextSend)
    }

    method SetRoot(cid: R)
      modifies this
      ensures root == cid && written == old(written) + [cid] && Table() == old(Table())
    {
      root := cid;
      written := written + [cid];
    }

    /** Puts back the state that was current when an aborted message started. */
    method Restore(cid: R, table: AddressTable)
      modifies this
      ensures root == cid && written == old(written) && Table() == table
    {
      root := cid;
      ids, nextActorId, abortNextSend := table.ids, table.next, table.abortNext;
    }

    function ResolveAddress(a: Address): (r: Option<ActorID>)
      reads this
      ensures r == Table().Resolve(a)
    {
      if a.ID? then Some(a.id) else if a in ids then Some(ids[a]) else None
    }

    /** A value transfer of zero, which instantiates the recipient if it can be. */
    method Send(to: Address) returns (r: Result<(), MessagingError>)
      modifies this
      ensures root == old(root) && written == old(written)
      ensures old(abortNextSend) ==> r == Err(Syscall) && Table() == old(Table()).(abortNext := false)
      ensures !old(abortNextSend) && to.Instantiable() && to !in old(ids) ==>
        r.Ok? && Table() == AddressTable(old(ids)[to := old(nextActorId)], old(nextActorId) + 1, false)
      ensures !old(abortNextSend) && !(to.Instantiable() && to !in old(ids)) ==>
        r.Ok? && Table() == old(Table())
    {
      if abortNextSend {
        abortNextSend := false;
        return Err(Syscall);
      }
      match to {
        case ID(_) =>
        case Actor(_) =>
        case Secp256k1(_) | BLS(_) | Delegated(_, _) =>
          if to !in ids {
            ids := ids[to := nextActorId];
            nextActorId := nextActorId + 1;
          }
      }
      return Ok(());
    }

    method InitializeAccount(a: Address) returns (r: Result<ActorID, MessagingError>)
      requires ResolveAddress(a).None?
      modifies this
      ensures root == old(root) && written == old(written)
      ensures (Table(), r) == old(Table()).Init(a)
    {
      var _ :- Send(a);
      match ResolveAddress(a) {
        case Some(id) => return Ok(id);
        case None => return Err(AddressNotInitialized(a));
      }
    }

    method ResolveOrInit(a: Address) returns (r: Result<ActorID, MessagingError>)
      modifies this
      ensures root == old(root) && written == old(written)
      ensures (Table(), r) == old(Table()).Init(a)
    {
      match ResolveAddress(a) {
        case Some(id) => return Ok(id);
        case None => r := InitializeAccount(a);
      }
    }

    predicate SameAddress(a: Address, b: Address)
      reads this
      ensures SameAddress(a, b) == Table().Same(a, b)
    {
      if a.Protocol() == b.Protocol() then a == b
      else
        match (ResolveAddress(a), ResolveAddress(b))
        case (Some(i), Some(j)) => i == j
        case _ => false
    }
  }
}
