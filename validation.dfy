/**
 * The middleware that runs after the field validators of POST and PUT. The
 * validators themselves are a library whose rules are not modelled; what
 * reaches this step is the list of errors they produced, in their order.
 */
module Validation {
  import opened Wrappers
  import opened Menu

  /** One validator error: the body field it concerns and its message. */
  datatype FieldError = FieldError(path: string, msg: string)

  /** `errors.map(error => error.msg)`: every message, in the validators' order. */
  function Messages(errors: seq<FieldError>): (msgs: seq<string>)
    ensures |msgs| == |errors|
    ensures forall i :: 0 <= i < |errors| ==> msgs[i] == errors[i].msg
  {
    if errors == [] then [] else [errors[0].msg] + Messages(errors[1..])
  }

  /** Messages of two batches of errors are the two batches of messages, one after the other. */
  lemma {:induction false} MessagesAppend(e1: seq<FieldError>, e2: seq<FieldError>)
    ensures Messages(e1 + e2) == Messages(e1) + Messages(e2)
  {
    if e1 != [] {
      assert (e1 + e2)[1..] == e1[1..] + e2;
      MessagesAppend(e1[1..], e2);
    }
  }

  /** The body once `completed` is given its default: false when absent, kept as sent otherwise. */
  function WithCompletedDefault(b: Body): (r: Body)
    ensures r.completed.Some?
    ensures b.completed.Some? ==> r == b
    ensures b.completed.None? ==> r.completed == Some(false)
    ensures r.(completed := b.completed) == b
  {
    if b.completed.None? then b.(completed := Some(false)) else b
  }

  /** Defaulting twice is defaulting once. */
  lemma WithCompletedDefaultIdempotent(b: Body)
    ensures WithCompletedDefault(WithCompletedDefault(b)) == WithCompletedDefault(b)
  {
  }

  /** The handlers copy only the item fields, so the defaulted flag never reaches a record. */
  lemma DefaultDoesNotReachItem(id: int, b: Body)
    ensures MakeItem(id, WithCompletedDefault(b)) == MakeItem(id, b)
  {
  }

  /** An incoming request; the middleware writes into its body. */
  class Request {
    var body: Body

    constructor (b: Body)
      ensures body == b
    {
      body := b;
    }
  }

  /** What the middleware does: pass on to the handler, or answer itself. */
  datatype Gate = Next | Halt(response: Response)

  /**
   * `handleValidationErrors`: with any error, answer 400 with all their
   * messages and leave the body alone; with none, default `completed` in
   * the body and pass on.
   */
  method HandleValidationErrors(req: Request, errors: seq<FieldError>) returns (gate: Gate)
    modifies req
    ensures errors != [] ==> gate == Halt(ValidationFailed(Messages(errors))) && req.body == old(req.body)
    ensures errors == [] ==> gate == Next && req.body == WithCompletedDefault(old(req.body))
  {
    if errors != [] {
      gate := Halt(ValidationFailed(Messages(errors)));
      return;
    }
    if req.body.completed.None? {
      req.body := req.body.(completed := Some(false));
    }
    gate := Next;
  }
}
