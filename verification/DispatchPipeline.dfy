/**
 The control flow of the inbound dispatch pipeline around the idempotency lease: early
 returns, hooks that throw, the catch block and the finally block.
 */
module DispatchPipeline {
  import opened IdempotencyRuntime
  import opened Wrappers

  datatype Response = Response(isError: bool, body: Value)

  /** What each collaborator does when the pipeline reaches it. */
  datatype Gate = Passes | Throws
  datatype Replay = ReplayPasses | Rejects(dlqThrows: bool)
  datatype Rate = RateOff | RatePasses | Limited | RateThrows
  datatype Builtin = NoBuiltin | Answers(response: Response) | BuiltinThrows
  datatype Began = BeganHit(response: Response) | BeganConflict | BeganExecute | BeginThrows
  datatype Dispatch = Dispatched(response: Response, skipAfterHook: bool) | DispatchThrows
  datatype AfterHook = NoAfterHook | Keeps | Replaces(response: Response) | AfterThrows

  datatype Script = Script(
    hasMethod: bool,
    replay: Replay,
    caller: Gate,
    rate: Rate,
    tenant: Gate,
    allowed: bool,
    builtin: Builtin,
    keyed: bool,             // an idempotency key exists and the runtime is enabled
    before: Gate,
    dispatch: Dispatch,
    after: AfterHook,
    commit: Gate,            // storing the response; a throw leaves cache and lease as they were
    onCommitted: Gate,
    shaping: Gate,           // logging and shaping the error, in the catch block
    bookkeeping: Gate,       // metrics and labels, in the finally block before the release
    audit: Gate)             // the audit record, in the finally block after it

  /** The idempotency calls a request makes after it was told to execute. */
  datatype Call = Commits(response: Response) | CommitThrows(response: Response) | Releases

  datatype Result = Returned(response: Response) | Rejected

  datatype Exit = Return(response: Response) | Throw

  // ----- what should happen -----

  /** Every gate before the idempotency claim lets the request through. */
  predicate ReachesClaim(s: Script) {
    s.hasMethod && s.replay.ReplayPasses? && s.caller.Passes? && (s.rate.RateOff? || s.rate.RatePasses?)
    && s.tenant.Passes? && s.allowed && s.builtin.NoBuiltin?
  }

  /** The request asks the runtime whether to execute. */
  predicate Claims(s: Script) {
    ReachesClaim(s) && s.keyed
  }

  /** The request holds a lease: it was told to execute under a key. */
  predicate Leads(s: Script, began: Began) {
    Claims(s) && began.BeganExecute?
  }

  /** The handler is reached. */
  predicate Handles(s: Script, began: Began) {
    ReachesClaim(s) && (!s.keyed || began.BeganExecute?)
  }

  /** The response after the handler and the after hook, unless something threw. */
  function FinalResponse(s: Script): Option<Response> {
    if s.before.Throws? || s.dispatch.DispatchThrows? then None
    else if s.dispatch.response.isError || s.dispatch.skipAfterHook then Some(s.dispatch.response)
    else match s.after
         case AfterThrows => None
         case Replaces(r) => Some(r)
         case _ => Some(s.dispatch.response)
  }

  /** The handling ended in a response that is not an error. */
  predicate Succeeds(s: Script) {
    FinalResponse(s).Some? && !FinalResponse(s).value.isError
  }

  /** The response of a request that was told to execute is stored. */
  predicate Stores(s: Script) {
    Succeeds(s) && s.commit.Passes?
  }

  /** Something after the claim throws out of the try block. */
  predicate Breaks(s: Script) {
    FinalResponse(s).None? || (Succeeds(s) && ((s.keyed && s.commit.Throws?) || s.onCommitted.Throws?))
  }

  // ----- the pipeline -----

  /** The try block. `errorBody` stands for every error response that the pipeline shapes itself. */
  method TryBlock(s: Script, began: Began, errorBody: Value)
    returns (exit: Exit, idemBegan: bool, idemCommitted: bool, calls: seq<Call>)
    ensures idemBegan <==> Leads(s, began)
    ensures idemCommitted <==> Leads(s, began) && Stores(s)
    ensures calls == if !idemBegan || !Succeeds(s) then []
                     else if idemCommitted then [Commits(FinalResponse(s).value)] else [CommitThrows(FinalResponse(s).value)]
    ensures Handles(s, began) ==> exit == if Breaks(s) then Throw else Return(FinalResponse(s).value)
    ensures Claims(s) && began.BeganHit? ==> exit == Return(began.response)
    ensures Claims(s) && began.BeganConflict? ==> exit == Return(Response(true, errorBody))
  {
    var errorResponse := Response(true, errorBody);
    idemBegan, idemCommitted, calls := false, false, [];
    if !s.hasMethod { return Return(errorResponse), idemBegan, idemCommitted, calls; }
    if s.replay.Rejects? {
      exit := if s.replay.dlqThrows then Throw else Return(errorResponse);
      return;
    }
    if s.caller.Throws? { return Throw, idemBegan, idemCommitted, calls; }
    if s.rate.Limited? { return Return(errorResponse), idemBegan, idemCommitted, calls; }
    if s.rate.RateThrows? || s.tenant.Throws? { return Throw, idemBegan, idemCommitted, calls; }
    if !s.allowed { return Return(errorResponse), idemBegan, idemCommitted, calls; }
    if s.builtin.BuiltinThrows? { return Throw, idemBegan, idemCommitted, calls; }
    if s.builtin.Answers? { return Return(s.builtin.response), idemBegan, idemCommitted, calls; }
    if s.keyed {
      match began
      case BeginThrows => return Throw, idemBegan, idemCommitted, calls;
      case BeganConflict => return Return(errorResponse), idemBegan, idemCommitted, calls;
      case BeganHit(response) => return Return(response), idemBegan, idemCommitted, calls;
      case BeganExecute => idemBegan := true;
    }
    if s.before.Throws? || s.dispatch.DispatchThrows? { return Throw, idemBegan, idemCommitted, calls; }
    var response := s.dispatch.response;
    if !s.after.NoAfterHook? && !response.isError && !s.dispatch.skipAfterHook {
      if s.after.AfterThrows? { return Throw, idemBegan, idemCommitted, calls; }
      if s.after.Replaces? { response := s.after.response; }
    }
    if !response.isError {
      if idemBegan {
        if s.commit.Throws? { return Throw, idemBegan, idemCommitted, calls + [CommitThrows(response)]; }
        calls := calls + [Commits(response)];
        idemCommitted := true;
      }
      if s.onCommitted.Throws? { return Throw, idemBegan, idemCommitted, calls; }
    }
    exit := Return(response);
  }

  /** The calls that end the lease. */
  function Effective(calls: seq<Call>): seq<Call> {
    if calls == [] then []
    else Effective(calls[..|calls| - 1]) + if calls[|calls| - 1].CommitThrows? then [] else [calls[|calls| - 1]]
  }

  /** The idempotency calls of a request, from the script and the runtime's answer. */
  function Calls(s: Script, began: Began): seq<Call> {
    if !Leads(s, began) then []
    else if Stores(s) then [Commits(FinalResponse(s).value)]
    else
      (if Succeeds(s) then [CommitThrows(FinalResponse(s).value)] else [])
      + if s.bookkeeping.Passes? then [Releases] else []
  }

  /** A request that was told to execute ends its lease exactly once, unless nothing was stored and the bookkeeping throws. */
  lemma LeaseEndsOnceIff(s: Script, began: Began)
    requires Leads(s, began)
    ensures |Effective(Calls(s, began))| == 1 <==> Stores(s) || s.bookkeeping.Passes?
    ensures Effective(Calls(s, began)) == if Stores(s) then [Commits(FinalResponse(s).value)]
                                          else if s.bookkeeping.Passes? then [Releases] else []
  {
    var calls := Calls(s, began);
    if |calls| == 2 {
      assert calls[..1] == [calls[0]] && calls[..1][..0] == [];
      assert Effective(calls[..1]) == [];
    } else if |calls| == 1 {
      assert calls[..0] == [];
    }
  }

  /**
   The whole pipeline: its idempotency calls, when its promise rejects, what it answers, and that
   the answer is the committed response exactly when nothing after the commit throws.
   */
  method RunDispatchPipeline(s: Script, began: Began, errorBody: Value) returns (result: Result, calls: seq<Call>)
    ensures calls == Calls(s, began)
    ensures Handles(s, began) ==>
              (result.Rejected? <==> s.bookkeeping.Throws? || s.audit.Throws? || (Breaks(s) && s.shaping.Throws?))
    ensures Handles(s, began) && result.Returned? ==>
              result.response == if Breaks(s) then Response(true, errorBody) else FinalResponse(s).value
    ensures Claims(s) && began.BeganHit? && result.Returned? ==> result.response == began.response
    ensures Leads(s, began) ==>
              ((exists c :: c in calls && c.Commits? && result == Returned(c.response))
               <==> Stores(s) && s.onCommitted.Passes? && s.bookkeeping.Passes? && s.audit.Passes?)
  {
    var exit, idemBegan, idemCommitted;
    exit, idemBegan, idemCommitted, calls := TryBlock(s, began, errorBody);
    // catch: routing the error to the dead-letter queue cannot throw out of the block
    var rejected := exit.Throw? && s.shaping.Throws?;
    var response := if exit.Throw? then Response(true, errorBody) else exit.response;
    // finally
    if s.bookkeeping.Throws? { return Rejected, calls; }
    if idemBegan && !idemCommitted { calls := calls + [Releases]; }
    if rejected || s.audit.Throws? { return Rejected, calls; }
    result := Returned(response);
    assert Leads(s, began) && Stores(s) ==> calls[0] == Commits(FinalResponse(s).value);
  }
}
