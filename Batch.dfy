/** The batch skeleton shared by both handlers: the object references an
    S3 event carries, fetching every object before any is processed, the
    SES client as a log of accepted messages, and the forward-until-the-
    first-failure run over the fetched objects. */
module Batch {
  import opened Wrappers
  import opened Mime

  /** One event record: the bucket name and the object key. */
  datatype ObjectRef = ObjectRef(bucket: string, key: string)

  /** The handler's answer together with the messages SES accepted. */
  datatype Outcome = Outcome(result: string, sent: seq<Outbound>)

  /** How far a batch got: whether every object was forwarded, and the
      messages sent, in object order. */
  datatype Run = Run(ok: bool, sent: seq<Outbound>)

  /** The S3 fetch loop: one getObject per record, in record order; the
      store answers None where getObject throws, and then the whole fetch
      fails. */
  function FetchAll(refs: seq<ObjectRef>, store: ObjectRef -> Option<Blob>): (r: Option<seq<Blob>>)
    ensures r.Some? <==> forall i :: 0 <= i < |refs| ==> store(refs[i]).Some?
    ensures r.Some? ==> |r.value| == |refs|
    ensures r.Some? ==> forall i :: 0 <= i < |refs| ==> Some(r.value[i]) == store(refs[i])
  {
    if refs == [] then Some([])
    else
      match store(refs[0])
      case None => None
      case Some(b) =>
        assert forall i :: 1 <= i < |refs| ==> refs[i] == refs[1..][i - 1];
        match FetchAll(refs[1..], store)
        case None => None
        case Some(rest) => Some([b] + rest)
  }

  /** The object was turned into a message and SES accepted it. */
  predicate Delivered(step: Result<Outbound, Fault>, accepts: Outbound -> bool)
  {
    step.Success? && accepts(step.value)
  }

  /** The forEach over the fetched objects, given what processing each one
      yields: messages are sent in order until the first object that fails
      or whose message SES refuses, and nothing after it is processed. */
  function Forward(steps: seq<Result<Outbound, Fault>>, accepts: Outbound -> bool): (r: Run)
    ensures |r.sent| <= |steps|
  {
    if steps == [] then Run(true, [])
    else if !Delivered(steps[0], accepts) then Run(false, [])
    else
      var rest := Forward(steps[1..], accepts);
      Run(rest.ok, [steps[0].value] + rest.sent)
  }

  /** The run sends the messages of a prefix of delivered objects, stops
      at the first object that is not delivered, and succeeds exactly when
      it gets through all of them. */
  lemma {:induction false} ForwardStopsAtFirstFailure(steps: seq<Result<Outbound, Fault>>, accepts: Outbound -> bool)
    ensures var r := Forward(steps, accepts);
      && (forall i :: 0 <= i < |r.sent| ==> Delivered(steps[i], accepts) && r.sent[i] == steps[i].value)
      && (r.ok <==> |r.sent| == |steps|)
      && (!r.ok ==> !Delivered(steps[|r.sent|], accepts))
  {
    if steps != [] && Delivered(steps[0], accepts) {
      ForwardStopsAtFirstFailure(steps[1..], accepts);
      var rest := Forward(steps[1..], accepts);
      assert forall i :: 1 <= i <= |rest.sent| ==> steps[i] == steps[1..][i - 1];
    }
  }

  /** The batch succeeds exactly when every object is delivered, and then
      one message is sent per object, in object order. */
  lemma {:induction false} ForwardOkIff(steps: seq<Result<Outbound, Fault>>, accepts: Outbound -> bool)
    ensures Forward(steps, accepts).ok <==> forall i :: 0 <= i < |steps| ==> Delivered(steps[i], accepts)
    ensures Forward(steps, accepts).ok ==>
      Forward(steps, accepts).sent == seq(|steps|, i requires 0 <= i < |steps| => steps[i].value)
  {
    ForwardStopsAtFirstFailure(steps, accepts);
  }

  /** Loop invariant of the forwarding loops: the objects before position
      i have been forwarded, sending `sent`, and the rest of the run is
      what the remaining objects yield. */
  predicate SentBefore(steps: seq<Result<Outbound, Fault>>, accepts: Outbound -> bool, i: nat, sent: seq<Outbound>)
    requires i <= |steps|
  {
    Forward(steps, accepts) ==
      Run(Forward(steps[i..], accepts).ok, sent + Forward(steps[i..], accepts).sent)
  }

  /** Nothing has been sent before the first object. */
  lemma SentBeforeStart(steps: seq<Result<Outbound, Fault>>, accepts: Outbound -> bool)
    ensures SentBefore(steps, accepts, 0, [])
  {
    assert steps[0..] == steps;
  }

  /** Forwarding a delivered object appends its message. */
  lemma SentBeforeAdvance(steps: seq<Result<Outbound, Fault>>, accepts: Outbound -> bool, i: nat, sent: seq<Outbound>)
    requires i < |steps| && Delivered(steps[i], accepts)
    requires SentBefore(steps, accepts, i, sent)
    ensures SentBefore(steps, accepts, i + 1, sent + [steps[i].value])
  {
    assert steps[i..][1..] == steps[i + 1..];
    var rest := Forward(steps[i + 1..], accepts);
    assert Forward(steps[i..], accepts) == Run(rest.ok, [steps[i].value] + rest.sent);
    assert sent + ([steps[i].value] + rest.sent) == (sent + [steps[i].value]) + rest.sent;
  }

  /** An object that is not delivered ends the run with what was sent. */
  lemma SentBeforeStop(steps: seq<Result<Outbound, Fault>>, accepts: Outbound -> bool, i: nat, sent: seq<Outbound>)
    requires i < |steps| && !Delivered(steps[i], accepts)
    requires SentBefore(steps, accepts, i, sent)
    ensures Forward(steps, accepts) == Run(false, sent)
  {
    assert Forward(steps[i..], accepts) == Run(false, []);
  }

  /** Past the last object the run has succeeded with what was sent. */
  lemma SentBeforeDone(steps: seq<Result<Outbound, Fault>>, accepts: Outbound -> bool, sent: seq<Outbound>)
    requires SentBefore(steps, accepts, |steps|, sent)
    ensures Forward(steps, accepts) == Run(true, sent)
  {
    assert steps[|steps|..] == [];
  }

  /** The SES client as seen from the handlers: every message it accepts
      is appended to the log of sent messages. Whether SES accepts a
      message is a fixed property of the message. */
  class Mailer {
    const accepts: Outbound -> bool
    var sent: seq<Outbound>

    constructor(accepts: Outbound -> bool)
      ensures this.accepts == accepts && sent == []
    {
      this.accepts := accepts;
      sent := [];
    }

    /** sendEmail: the message goes out when SES accepts it; otherwise the
        call throws (ok is false) and nothing is sent. */
    method Send(m: Outbound) returns (ok: bool)
      modifies this
      ensures ok == accepts(m)
      ensures sent == if ok then old(sent) + [m] else old(sent)
    {
      ok := accepts(m);
      if ok {
        sent := sent + [m];
      }
    }
  }
}
