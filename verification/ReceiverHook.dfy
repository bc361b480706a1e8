/**
 The guarded, one-shot call to a receiver hook.  Sending the message is the machine's business, so
 a call is split in two around the send: `Begin` and `Finish`.
 */
module ReceiverHooks {
  import opened Basics
  import opened Addresses

  /** What the recipient of fungible tokens is told; `D` is the operator data passed through to it. */
  datatype TokenReceived<D> =
    TokenReceived(operator: ActorID, from: ActorID, to: ActorID, amount: int, operatorData: D)

  datatype HookError =
    | AlreadyCalled
    | Receiver(address: Address)

  /** `T` is the caller's intermediate result, `P` the message. */
  class ReceiverHook<T, P> {
    const address: Address
    var called: bool
    var params: Option<P>
    var result: Option<T>

    ghost predicate Valid()
      reads this
    {
      !called ==> params.Some? && result.Some?
    }

    constructor (address: Address, params: P, result: T)
      ensures Valid() && !called && this.address == address
      ensures this.params == Some(params) && this.result == Some(result)
    {
      this.address, called, this.params, this.result := address, false, Some(params), Some(result);
    }

    /** Marks the hook called and hands out the message, the first time only. */
    method Begin() returns (r: Result<P, HookError>)
      requires Valid()
      modifies this
      ensures called && Valid() && result == old(result)
      ensures old(called) ==> r == Err(AlreadyCalled) && params == old(params)
      ensures !old(called) ==> Some(old(params).value) == old(params) && r == Ok(old(params).value) && params == None
    {
      if called {
        return Err(AlreadyCalled);
      }
      called := true;
      r := Ok(params.value);
      params := None;
    }

    /** The intermediate result, if the recipient accepted. */
    method Finish(accepted: bool) returns (r: Result<T, HookError>)
      requires Valid() && called && result.Some?
      modifies this
      ensures called && Valid()
      ensures r == (if accepted then Ok(old(result).value) else Err(Receiver(address)))
    {
      if accepted {
        r := Ok(result.value);
        result := None;
      } else {
        r := Err(Receiver(address));
      }
    }

    /** Dropping a hook that was not called is a panic; here it does not verify. */
    method Drop()
      requires called
    {
    }
  }
}
