/** The legacy Lambda handler (S3ReceiveMailEventHandler.kt): the same
    forwarding job with a configuration file holding one sender, a fixed
    subject prefix, a per-object loop that leaves the handler with "ERROR"
    at the first failing object, and a lowercase "ok" for an empty event. */
module Legacy {
  import opened Wrappers
  import opened Mime
  import opened Batch
  import Config
  import App

  const SUBJECT_PREFIX: string := "SES FW: "

  /** Answer for an event without records (lowercase, unlike the others). */
  const EMPTY_OK: string := "ok"
  const OK: string := "OK"
  const ERROR: string := "ERROR"

  /** Content type of the body part. */
  const BODY_TYPE: string := "text/html"

  /** The legacy configuration file: one sender, the recipients and the
      region name. */
  datatype LegacyConfig = LegacyConfig(mailFrom: string, mailTo: seq<string>, regionId: string)

  /** The body of the forEach lambda up to the send. The body is selected
      but may be null; the recipients, then the sender, are checked as
      addresses; `subject!!` fails before `content!!`. */
  function Rewrite(cfg: LegacyConfig, lib: Library, blob: Blob): (r: Result<Outbound, Fault>)
    ensures r.Success? ==> lib.parse(blob).Some? && lib.isAddress(cfg.mailFrom)
    ensures r.Success? ==> r.value.from == [cfg.mailFrom] && r.value.to == cfg.mailTo
    ensures r.Success? ==> forall i :: 0 <= i < |r.value.to| ==> lib.isAddress(r.value.to[i])
  {
    match lib.parse(blob)
    case None => Failure(ParseError)
    case Some(msg) =>
      var content := SelectBody(msg, lib.outerHtml);
      match FirstInvalid(cfg.mailTo, lib.isAddress)
      case Some(a) => Failure(InvalidAddress(a))
      case None =>
        if !lib.isAddress(cfg.mailFrom) then Failure(InvalidAddress(cfg.mailFrom))
        else
          match msg.subject
          case None => Failure(NullSubject)
          case Some(subject) =>
            match content
            case None => Failure(NullContent)
            case Some(body) =>
              Success(Outbound([cfg.mailFrom], cfg.mailTo, SUBJECT_PREFIX + subject, None,
                               PartsOf(body, BODY_TYPE, msg.attachments), None))
  }

  /** What processing each fetched object yields, in order. */
  function Rewrites(cfg: LegacyConfig, lib: Library, blobs: seq<Blob>): (r: seq<Result<Outbound, Fault>>)
    ensures |r| == |blobs|
    ensures forall i :: 0 <= i < |blobs| ==> r[i] == Rewrite(cfg, lib, blobs[i])
  {
    seq(|blobs|, i requires 0 <= i < |blobs| => Rewrite(cfg, lib, blobs[i]))
  }

  /** handleRequest as a whole. An absent or empty record list answers
      "ok"; inside the outer try, a configuration that cannot be loaded, a
      region name the SDK does not know or a failed fetch answers "ERROR";
      otherwise the objects are forwarded in order and the first failure
      returns "ERROR" from the handler. */
  function Handle(records: Option<seq<ObjectRef>>, loaded: Option<LegacyConfig>, knownRegion: string -> bool,
                  store: ObjectRef -> Option<Blob>, lib: Library, accepts: Outbound -> bool): (o: Outcome)
    ensures o.result == EMPTY_OK || o.result == OK || o.result == ERROR
    ensures o.result == EMPTY_OK <==> records.None? || records.value == []
    ensures records.Some? ==> |o.sent| <= |records.value|
  {
    if records.None? || records.value == [] then Outcome(EMPTY_OK, [])
    else if loaded.None? || !knownRegion(loaded.value.regionId) then Outcome(ERROR, [])
    else
      match FetchAll(records.value, store)
      case None => Outcome(ERROR, [])
      case Some(blobs) =>
        var run := Forward(Rewrites(loaded.value, lib, blobs), accepts);
        Outcome(if run.ok then OK else ERROR, run.sent)
  }

  /** A configuration or region failure answers ERROR and sends nothing. */
  lemma ConfigFailureIsError(records: seq<ObjectRef>, loaded: Option<LegacyConfig>, knownRegion: string -> bool,
                             store: ObjectRef -> Option<Blob>, lib: Library, accepts: Outbound -> bool)
    requires records != []
    requires loaded.None? || !knownRegion(loaded.value.regionId)
    ensures Handle(Some(records), loaded, knownRegion, store, lib, accepts) == Outcome(ERROR, [])
  {
  }

  /** With the configuration loaded, a non-empty batch answers OK exactly
      when every object is fetched, rewritten and accepted, and then one
      message per object has been sent, in record order. */
  lemma {:induction false} HandleOkIff(records: seq<ObjectRef>, cfg: LegacyConfig, knownRegion: string -> bool,
                    store: ObjectRef -> Option<Blob>, lib: Library, accepts: Outbound -> bool)
    requires records != [] && knownRegion(cfg.regionId)
    ensures var o := Handle(Some(records), Some(cfg), knownRegion, store, lib, accepts);
      o.result == OK <==>
        FetchAll(records, store).Some? &&
        forall i :: 0 <= i < |records| ==> Delivered(Rewrite(cfg, lib, FetchAll(records, store).value[i]), accepts)
    ensures var o := Handle(Some(records), Some(cfg), knownRegion, store, lib, accepts);
      o.result == OK ==> (|o.sent| == |records| &&
        forall i :: 0 <= i < |records| ==> o.sent[i] == Rewrite(cfg, lib, FetchAll(records, store).value[i]).value)
  {
    var fetched := FetchAll(records, store);
    if fetched.Some? {
      ForwardOkIff(Rewrites(cfg, lib, fetched.value), accepts);
    }
  }

  /** The non-local return: an ERROR after a successful fetch leaves the
      objects before the failing one sent and the ones after it untouched. */
  lemma {:induction false} HandleStopsAtFirstFailure(records: seq<ObjectRef>, cfg: LegacyConfig, knownRegion: string -> bool,
                                  store: ObjectRef -> Option<Blob>, lib: Library, accepts: Outbound -> bool)
    requires records != [] && knownRegion(cfg.regionId) && FetchAll(records, store).Some?
    ensures var o := Handle(Some(records), Some(cfg), knownRegion, store, lib, accepts);
      var blobs := FetchAll(records, store).value;
      o.result == ERROR ==> (|o.sent| < |records| &&
        !Delivered(Rewrite(cfg, lib, blobs[|o.sent|]), accepts) &&
        forall i :: 0 <= i < |o.sent| ==>
          Delivered(Rewrite(cfg, lib, blobs[i]), accepts) && o.sent[i] == Rewrite(cfg, lib, blobs[i]).value)
  {
    ForwardStopsAtFirstFailure(Rewrites(cfg, lib, FetchAll(records, store).value), accepts);
  }

  /** A failed getObject answers ERROR before any object is processed. */
  lemma FetchFailureSendsNothing(records: seq<ObjectRef>, cfg: LegacyConfig, knownRegion: string -> bool,
                                 store: ObjectRef -> Option<Blob>, lib: Library, accepts: Outbound -> bool)
    requires knownRegion(cfg.regionId)
    requires exists i :: 0 <= i < |records| && store(records[i]).None?
    ensures Handle(Some(records), Some(cfg), knownRegion, store, lib, accepts) == Outcome(ERROR, [])
  {
  }

  /** A legacy mail is forwarded exactly when it parses, every configured
      recipient and the configured sender are valid addresses, and it has
      a subject and a body. */
  lemma RewriteSucceedsIff(cfg: LegacyConfig, lib: Library, blob: Blob)
    ensures Rewrite(cfg, lib, blob).Success? <==>
      lib.parse(blob).Some? &&
      (forall i :: 0 <= i < |cfg.mailTo| ==> lib.isAddress(cfg.mailTo[i])) &&
      lib.isAddress(cfg.mailFrom) &&
      lib.parse(blob).value.subject.Some? &&
      SelectBody(lib.parse(blob).value, lib.outerHtml).Some?
  {
  }

  /** `subject!!` is evaluated before `content!!`: a mail with neither a
      subject nor a body fails on the subject; a mail with a subject but
      no body fails on the body. */
  lemma NullSubjectBeforeNullContent(cfg: LegacyConfig, lib: Library, blob: Blob)
    requires lib.parse(blob).Some?
    requires forall i :: 0 <= i < |cfg.mailTo| ==> lib.isAddress(cfg.mailTo[i])
    requires lib.isAddress(cfg.mailFrom)
    ensures lib.parse(blob).value.subject.None? ==> Rewrite(cfg, lib, blob) == Failure(NullSubject)
    ensures lib.parse(blob).value.subject.Some? && SelectBody(lib.parse(blob).value, lib.outerHtml).None? ==>
      Rewrite(cfg, lib, blob) == Failure(NullContent)
  {
  }

  /** A forwarded message: From is the single configured sender, To is
      every configured recipient, the subject is "SES FW: " followed by
      the original subject in the default charset, and the multipart holds
      the body as text/html followed by the attachments in order. */
  lemma ForwardedMessage(cfg: LegacyConfig, lib: Library, blob: Blob)
    requires Rewrite(cfg, lib, blob).Success?
    ensures var m := Rewrite(cfg, lib, blob).value;
      var msg := lib.parse(blob).value;
      && m.from == [cfg.mailFrom]
      && m.to == cfg.mailTo
      && m.subject == SUBJECT_PREFIX + msg.subject.value
      && m.subjectCharset.None?
      && m.parts[0] == BodyPart(SelectBody(msg, lib.outerHtml).value, BODY_TYPE)
      && SourcesOf(m.parts[1..]) == msg.attachments
      && forall i :: 1 <= i < |m.parts| ==> m.parts[i].fileName == msg.attachments[i - 1].name
  {
    var msg := lib.parse(blob).value;
    BodyFirstAndOnly(SelectBody(msg, lib.outerHtml).value, BODY_TYPE, msg.attachments);
  }

  /** The two handlers answer an event without records differently: the
      legacy handler in lowercase, the current one in uppercase. */
  lemma EmptyEventAnswersDiffer(loaded: Option<LegacyConfig>, knownRegion: string -> bool,
                                store: ObjectRef -> Option<Blob>, lib: Library, accepts: Outbound -> bool,
                                cfg: Config.Config, env: Config.Env)
    ensures Handle(Some([]), loaded, knownRegion, store, lib, accepts).result == "ok"
    ensures App.Handle(cfg, env, Some([]), store, lib, accepts).result == "OK"
  {
  }

  /** The two handlers check a mail in different orders. Given the same
      recipients, a mail without a body and with a refused recipient
      fails on its content in the current handler but on the address in
      the legacy one. */
  lemma CheckOrderDiffers(cfg: LegacyConfig, settings: App.Settings, lib: Library, blob: Blob)
    requires settings.mailTo == Success(cfg.mailTo)
    requires lib.parse(blob).Some? && SelectBody(lib.parse(blob).value, lib.outerHtml).None?
    requires exists i :: 0 <= i < |cfg.mailTo| && !lib.isAddress(cfg.mailTo[i])
    ensures App.Rewrite(settings, lib, blob) == Failure(InvalidContent)
    ensures Rewrite(cfg, lib, blob).Failure? && Rewrite(cfg, lib, blob).error.InvalidAddress?
  {
  }

  /** The forEach lambda for one object, ending in the send; ok is false
      where the Kotlin code reaches its `return "ERROR"`. */
  method ProcessObject(cfg: LegacyConfig, s3object: Blob, lib: Library, ses: Mailer) returns (ok: bool)
    modifies ses
    ensures ok == Delivered(Rewrite(cfg, lib, s3object), ses.accepts)
    ensures ses.sent == if ok then old(ses.sent) + [Rewrite(cfg, lib, s3object).value] else old(ses.sent)
  {
    var parsed := lib.parse(s3object);
    if parsed.None? {
      return false;
    }
    var parser := parsed.value;
    var content := SelectBody(parser, lib.outerHtml);
    var invalid := FirstInvalid(cfg.mailTo, lib.isAddress);
    if invalid.Some? || !lib.isAddress(cfg.mailFrom) {
      return false;
    }
    if parser.subject.None? {
      return false;
    }
    var subject := SUBJECT_PREFIX + parser.subject.value;
    if content.None? {
      return false;
    }
    var mp := BuildMultipart(content.value, BODY_TYPE, parser.attachments);
    var msg := Outbound([cfg.mailFrom], cfg.mailTo, subject, None, mp.parts, None);
    ok := ses.Send(msg);
  }

  /** handleRequest: the early "ok", the outer try around configuration,
      region and fetch, and the per-object loop whose first failure returns
      "ERROR" at once. */
  method HandleRequest(records: Option<seq<ObjectRef>>, loaded: Option<LegacyConfig>, knownRegion: string -> bool,
                       store: ObjectRef -> Option<Blob>, lib: Library, ses: Mailer) returns (result: string)
    modifies ses
    ensures result == Handle(records, loaded, knownRegion, store, lib, ses.accepts).result
    ensures ses.sent == old(ses.sent) + Handle(records, loaded, knownRegion, store, lib, ses.accepts).sent
  {
    if records.None? || |records.value| == 0 {
      return EMPTY_OK;
    }
    if loaded.None? || !knownRegion(loaded.value.regionId) {
      return ERROR;
    }
    var config := loaded.value;
    var s3objects := FetchAll(records.value, store);
    if s3objects.None? {
      return ERROR;
    }
    var ok := ForwardEach(config, s3objects.value, lib, ses);
    result := if ok then OK else ERROR;
  }

  /** The forEach over the fetched objects: each is processed and sent in
      turn, and the first failure leaves the loop (and the handler). */
  method ForwardEach(config: LegacyConfig, blobs: seq<Blob>, lib: Library, ses: Mailer) returns (ok: bool)
    modifies ses
    ensures ok == Forward(Rewrites(config, lib, blobs), ses.accepts).ok
    ensures ses.sent == old(ses.sent) + Forward(Rewrites(config, lib, blobs), ses.accepts).sent
  {
    ghost var steps := Rewrites(config, lib, blobs);
    ghost var sentSoFar: seq<Outbound> := [];
    SentBeforeStart(steps, ses.accepts);
    var i := 0;
    while i < |blobs|
      invariant 0 <= i <= |blobs|
      invariant ses.sent == old(ses.sent) + sentSoFar
      invariant SentBefore(steps, ses.accepts, i, sentSoFar)
    {
      ok := ForwardOne(config, blobs, lib, ses, i, sentSoFar);
      if !ok {
        return;
      }
      sentSoFar := sentSoFar + [steps[i].value];
      i := i + 1;
    }
    SentBeforeDone(steps, ses.accepts, sentSoFar);
    ok := true;
  }

  /** One round of the for loop: object i is processed and sent; either
      the batch moves on to the next object or it ends here. */
  method ForwardOne(config: LegacyConfig, blobs: seq<Blob>, lib: Library, ses: Mailer,
                    i: nat, ghost sentSoFar: seq<Outbound>) returns (ok: bool)
    requires i < |blobs| && SentBefore(Rewrites(config, lib, blobs), ses.accepts, i, sentSoFar)
    modifies ses
    ensures ok == Delivered(Rewrites(config, lib, blobs)[i], ses.accepts)
    ensures ok ==> ses.sent == old(ses.sent) + [Rewrites(config, lib, blobs)[i].value]
    ensures ok ==> SentBefore(Rewrites(config, lib, blobs), ses.accepts, i + 1,
                              sentSoFar + [Rewrites(config, lib, blobs)[i].value])
    ensures !ok ==> ses.sent == old(ses.sent)
    ensures !ok ==> Forward(Rewrites(config, lib, blobs), ses.accepts) == Run(false, sentSoFar)
  {
    ghost var steps := Rewrites(config, lib, blobs);
    assert steps[i] == Rewrite(config, lib, blobs[i]);
    ok := ProcessObject(config, blobs[i], lib, ses);
    if ok {
      SentBeforeAdvance(steps, ses.accepts, i, sentSoFar);
    } else {
      SentBeforeStop(steps, ses.accepts, i, sentSoFar);
    }
  }
}
