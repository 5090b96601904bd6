/** The current Lambda handler (app Main.kt): for every stored mail named
    by an S3 event it selects the body, looks up the recipients, builds a
    new multipart message and sends it through SES, answering "OK" when
    the whole batch went out and "ERROR" at the first failure. */
module App {
  import opened Wrappers
  import opened Config
  import opened Mime
  import opened Batch

  const OK: string := "OK"
  const ERROR: string := "ERROR"

  /** Content type of the body part (ISO-2022-JP, for Japanese text). */
  const BODY_TYPE: string := "text/html; charset=ISO-2022-JP"

  /** Content type given to setContent for the whole multipart. */
  const MESSAGE_TYPE: string := "text/html;"

  /** Charset the subject is encoded in. */
  const SUBJECT_CHARSET: string := "UTF-8"

  /** The configuration values the handler reads while forwarding: the
      sender list, the recipients (or the MAIL_TO failure) and the subject
      prefix. The environment does not change during an invocation, so
      reading them once gives the values every object sees. */
  datatype Settings = Settings(mailFrom: seq<string>, mailTo: Result<seq<string>, ConfigError>, subjectPrefix: string)

  /** The values the getters yield for this environment. MAIL_TO fails
      exactly when it is unset or empty, and otherwise gives the same list
      as getMailToSafe. */
  function SettingsOf(cfg: Config, env: Env): (s: Settings)
    ensures s.mailFrom == cfg.MailFrom(env) && s.subjectPrefix == cfg.SubjectPrefix(env)
    ensures s.mailTo.Failure? <==> IsNullOrEmpty(Getenv(env, "MAIL_TO"))
    ensures s.mailTo.Success? ==> s.mailTo.value == cfg.MailToSafe(env)
  {
    Settings(cfg.MailFrom(env), cfg.MailTo(env), cfg.SubjectPrefix(env))
  }

  /** The message createMimeMessage builds. From is the configured sender
      list as a whole: the per-destination resolver is not consulted. The
      body part comes first, and each attachment follows in order as a
      file part named after it. */
  function Compose(settings: Settings, subject: string, to: seq<string>,
                   attachments: seq<Attachment>, content: string): (m: Outbound)
    ensures m.from == settings.mailFrom && m.to == to
    ensures m.subject == settings.subjectPrefix + subject && m.subjectCharset == Some(SUBJECT_CHARSET)
    ensures m.contentType == Some(MESSAGE_TYPE)
    ensures |m.parts| == |attachments| + 1 && m.parts[0] == BodyPart(content, BODY_TYPE)
    ensures forall i :: 0 < i < |m.parts| ==>
      m.parts[i].FilePart? && m.parts[i].source == attachments[i - 1] && m.parts[i].fileName == attachments[i - 1].name
  {
    Outbound(settings.mailFrom, to, settings.subjectPrefix + subject, Some(SUBJECT_CHARSET),
             PartsOf(content, BODY_TYPE, attachments), Some(MESSAGE_TYPE))
  }

  /** processEachObject up to the send: parse, select the body, look up
      and check the recipients, then build the message. A null subject
      fails when it is passed to createMimeMessage, after the recipients. */
  function Rewrite(settings: Settings, lib: Library, blob: Blob): (r: Result<Outbound, Fault>)
    ensures r.Success? ==> lib.parse(blob).Some? && settings.mailTo.Success?
    ensures r.Success? ==> r.value.from == settings.mailFrom && r.value.to == settings.mailTo.value
    ensures r.Success? ==> forall i :: 0 <= i < |r.value.to| ==> lib.isAddress(r.value.to[i])
  {
    match lib.parse(blob)
    case None => Failure(ParseError)
    case Some(msg) =>
      match SelectBody(msg, lib.outerHtml)
      case None => Failure(InvalidContent)
      case Some(content) =>
        match settings.mailTo
        case Failure(_) => Failure(MailToUndefined)
        case Success(to) =>
          match FirstInvalid(to, lib.isAddress)
          case Some(a) => Failure(InvalidAddress(a))
          case None =>
            match msg.subject
            case None => Failure(NullSubject)
            case Some(subject) => Success(Compose(settings, subject, to, msg.attachments, content))
  }

  /** What processing each fetched object yields, in order. */
  function Rewrites(settings: Settings, lib: Library, blobs: seq<Blob>): (r: seq<Result<Outbound, Fault>>)
    ensures |r| == |blobs|
    ensures forall i :: 0 <= i < |blobs| ==> r[i] == Rewrite(settings, lib, blobs[i])
  {
    seq(|blobs|, i requires 0 <= i < |blobs| => Rewrite(settings, lib, blobs[i]))
  }

  /** handleRequest as a whole: an absent or empty record list answers OK
      before anything is fetched; otherwise every object is fetched first,
      then forwarded in order until the first failure. */
  function Handle(cfg: Config, env: Env, records: Option<seq<ObjectRef>>,
                  store: ObjectRef -> Option<Blob>, lib: Library, accepts: Outbound -> bool): (o: Outcome)
    ensures o.result == OK || o.result == ERROR
    ensures records.None? || records.value == [] ==> o == Outcome(OK, [])
    ensures records.Some? ==> |o.sent| <= |records.value|
  {
    if records.None? || records.value == [] then Outcome(OK, [])
    else
      match FetchAll(records.value, store)
      case None => Outcome(ERROR, [])
      case Some(blobs) =>
        var run := Forward(Rewrites(SettingsOf(cfg, env), lib, blobs), accepts);
        Outcome(if run.ok then OK else ERROR, run.sent)
  }

  /** A fetch failure answers ERROR before anything is processed. */
  lemma FetchFailureSendsNothing(cfg: Config, env: Env, refs: seq<ObjectRef>,
                                 store: ObjectRef -> Option<Blob>, lib: Library, accepts: Outbound -> bool)
    requires exists i :: 0 <= i < |refs| && store(refs[i]).None?
    ensures Handle(cfg, env, Some(refs), store, lib, accepts) == Outcome(ERROR, [])
  {
  }

  /** A non-empty batch answers OK exactly when every object is fetched,
      rewritten and accepted by SES, and then exactly one message per
      object has been sent, in record order. */
  lemma {:induction false} HandleOkIff(cfg: Config, env: Env, refs: seq<ObjectRef>,
                    store: ObjectRef -> Option<Blob>, lib: Library, accepts: Outbound -> bool)
    requires refs != []
    ensures var o := Handle(cfg, env, Some(refs), store, lib, accepts);
      o.result == OK <==>
        FetchAll(refs, store).Some? &&
        forall i :: 0 <= i < |refs| ==> Delivered(Rewrite(SettingsOf(cfg, env), lib, FetchAll(refs, store).value[i]), accepts)
    ensures var o := Handle(cfg, env, Some(refs), store, lib, accepts);
      o.result == OK ==> (|o.sent| == |refs| &&
        forall i :: 0 <= i < |refs| ==> o.sent[i] == Rewrite(SettingsOf(cfg, env), lib, FetchAll(refs, store).value[i]).value)
  {
    var fetched := FetchAll(refs, store);
    if fetched.Some? {
      var steps := Rewrites(SettingsOf(cfg, env), lib, fetched.value);
      ForwardOkIff(steps, accepts);
    }
  }

  /** An ERROR after a successful fetch means: every object before the
      failing one was sent, the failing one was not, and nothing after it
      was processed. */
  lemma {:induction false} HandleStopsAtFirstFailure(cfg: Config, env: Env, refs: seq<ObjectRef>,
                                  store: ObjectRef -> Option<Blob>, lib: Library, accepts: Outbound -> bool)
    requires refs != [] && FetchAll(refs, store).Some?
    ensures var o := Handle(cfg, env, Some(refs), store, lib, accepts);
      var blobs := FetchAll(refs, store).value;
      o.result == ERROR ==> (|o.sent| < |refs| &&
        !Delivered(Rewrite(SettingsOf(cfg, env), lib, blobs[|o.sent|]), accepts) &&
        forall i :: 0 <= i < |o.sent| ==>
          Delivered(Rewrite(SettingsOf(cfg, env), lib, blobs[i]), accepts) &&
          o.sent[i] == Rewrite(SettingsOf(cfg, env), lib, blobs[i]).value)
  {
    ForwardStopsAtFirstFailure(Rewrites(SettingsOf(cfg, env), lib, FetchAll(refs, store).value), accepts);
  }

  /** A mail is forwarded exactly when it parses, has a body, MAIL_TO is
      set, every recipient is a valid address and the subject is present. */
  lemma RewriteSucceedsIff(cfg: Config, env: Env, lib: Library, blob: Blob)
    ensures Rewrite(SettingsOf(cfg, env), lib, blob).Success? <==>
      lib.parse(blob).Some? &&
      SelectBody(lib.parse(blob).value, lib.outerHtml).Some? &&
      cfg.MailTo(env).Success? &&
      (forall i :: 0 <= i < |cfg.MailTo(env).value| ==> lib.isAddress(cfg.MailTo(env).value[i])) &&
      lib.parse(blob).value.subject.Some?
  {
  }

  /** The body is selected before the recipients are looked up: a mail
      without HTML or plain text fails with "Invalid content." whatever
      MAIL_TO says, and a missing MAIL_TO is reported only for a mail that
      has a body. */
  lemma ContentCheckedBeforeRecipients(cfg: Config, env: Env, lib: Library, blob: Blob)
    requires lib.parse(blob).Some?
    ensures SelectBody(lib.parse(blob).value, lib.outerHtml).None? ==>
      Rewrite(SettingsOf(cfg, env), lib, blob) == Failure(InvalidContent)
    ensures Rewrite(SettingsOf(cfg, env), lib, blob) == Failure(MailToUndefined) <==>
      SelectBody(lib.parse(blob).value, lib.outerHtml).Some? && cfg.MailTo(env).Failure?
  {
  }

  /** A forwarded message: From is the configured sender list, To is every
      MAIL_TO entry, the subject is the prefix followed by the original
      subject in UTF-8, the body comes first and the attachments follow in
      order. */
  lemma ForwardedMessage(cfg: Config, env: Env, lib: Library, blob: Blob)
    requires Rewrite(SettingsOf(cfg, env), lib, blob).Success?
    ensures var m := Rewrite(SettingsOf(cfg, env), lib, blob).value;
      var msg := lib.parse(blob).value;
      && m.from == cfg.MailFrom(env)
      && m.to == cfg.MailTo(env).value
      && m.subject == cfg.SubjectPrefix(env) + msg.subject.value
      && m.subjectCharset == Some(SUBJECT_CHARSET)
      && m.parts[0] == BodyPart(SelectBody(msg, lib.outerHtml).value, BODY_TYPE)
      && SourcesOf(m.parts[1..]) == msg.attachments
      && forall i :: 1 <= i < |m.parts| ==> m.parts[i].fileName == msg.attachments[i - 1].name
  {
    var msg := lib.parse(blob).value;
    BodyFirstAndOnly(SelectBody(msg, lib.outerHtml).value, BODY_TYPE, msg.attachments);
  }

  /** The From header does not depend on the mail being forwarded: any
      two forwarded mails go out from the same configured sender list,
      whoever they were sent to and whatever they hold. */
  lemma FromIgnoresDestination(cfg: Config, env: Env, lib: Library, b1: Blob, b2: Blob)
    requires Rewrite(SettingsOf(cfg, env), lib, b1).Success? && Rewrite(SettingsOf(cfg, env), lib, b2).Success?
    ensures Rewrite(SettingsOf(cfg, env), lib, b1).value.from == Rewrite(SettingsOf(cfg, env), lib, b2).value.from
  {
  }

  /** The original recipients play no part in forwarding: two mails that
      parse to the same message except for their recipients are
      forwarded (or refused) alike. */
  lemma OriginalRecipientsIgnored(settings: Settings, lib: Library, b1: Blob, b2: Blob)
    requires lib.parse(b1).Some? && lib.parse(b2).Some?
    requires lib.parse(b2).value == lib.parse(b1).value.(recipients := lib.parse(b2).value.recipients)
    ensures Rewrite(settings, lib, b1) == Rewrite(settings, lib, b2)
  {
  }

  /** The handler object: the configuration it loaded and the region its
      S3 and SES clients were last built for. */
  class Main {
    const config: Config
    var s3Region: Option<Region>
    var sesRegion: Option<Region>

    constructor(config: Config)
      ensures this.config == config && s3Region == None && sesRegion == None
    {
      this.config := config;
      s3Region := None;
      sesRegion := None;
    }

    /** createMimeMessage: the multipart is built part by part, then the
        headers are set from the configuration values. */
    method CreateMimeMessage(settings: Settings, subject: string, toAddresses: seq<string>,
                             attachmentList: seq<Attachment>, content: string) returns (m: Outbound)
      ensures m == Compose(settings, subject, toAddresses, attachmentList, content)
    {
      var multipart := BuildMultipart(content, BODY_TYPE, attachmentList);
      m := Outbound(settings.mailFrom, toAddresses, settings.subjectPrefix + subject,
                    Some(SUBJECT_CHARSET), multipart.parts, Some(MESSAGE_TYPE));
    }

    /** processEachObject followed by sendEmail; ok is false where the
        Kotlin code throws. */
    method ProcessEachObject(settings: Settings, s3Object: Blob, lib: Library, ses: Mailer) returns (ok: bool)
      modifies ses
      ensures ok == Delivered(Rewrite(settings, lib, s3Object), ses.accepts)
      ensures ses.sent == if ok then old(ses.sent) + [Rewrite(settings, lib, s3Object).value] else old(ses.sent)
    {
      var parsed := lib.parse(s3Object);
      if parsed.None? {
        return false;
      }
      var parser := parsed.value;
      var s3ObjContent := SelectBody(parser, lib.outerHtml);
      if s3ObjContent.None? {
        return false;
      }
      if settings.mailTo.Failure? {
        return false;
      }
      var toAddresses := settings.mailTo.value;
      var invalid := FirstInvalid(toAddresses, lib.isAddress);
      if invalid.Some? {
        return false;
      }
      if parser.subject.None? {
        return false;
      }
      var mimeMessage := CreateMimeMessage(settings, parser.subject.value, toAddresses,
                                           parser.attachments, s3ObjContent.value);
      ok := ses.Send(mimeMessage);
    }

    /** handleRequest: the clients are built for the configured region,
        then the batch runs as Handle describes, and SES ends up having
        sent exactly the messages Handle lists. */
    method HandleRequest(env: Env, records: Option<seq<ObjectRef>>, store: ObjectRef -> Option<Blob>,
                         lib: Library, ses: Mailer) returns (result: string)
      modifies this, ses
      ensures s3Region == Some(config.Region(env)) && sesRegion == Some(config.Region(env))
      ensures result == Handle(config, env, records, store, lib, ses.accepts).result
      ensures ses.sent == old(ses.sent) + Handle(config, env, records, store, lib, ses.accepts).sent
    {
      s3Region := Some(config.Region(env));
      sesRegion := Some(config.Region(env));
      if records.None? || |records.value| == 0 {
        return OK;
      }
      var s3ObjectsInByte := FetchAll(records.value, store);
      if s3ObjectsInByte.None? {
        return ERROR;
      }
      var ok := ForwardEach(SettingsOf(config, env), s3ObjectsInByte.value, lib, ses);
      result := if ok then OK else ERROR;
    }

    /** The forEach over the fetched objects: each is processed and sent
        in turn, and the first failure ends the batch. */
    method ForwardEach(settings: Settings, blobs: seq<Blob>, lib: Library, ses: Mailer) returns (ok: bool)
      modifies ses
      ensures ok == Forward(Rewrites(settings, lib, blobs), ses.accepts).ok
      ensures ses.sent == old(ses.sent) + Forward(Rewrites(settings, lib, blobs), ses.accepts).sent
    {
      ghost var steps := Rewrites(settings, lib, blobs);
      ghost var sentSoFar: seq<Outbound> := [];
      SentBeforeStart(steps, ses.accepts);
      var i := 0;
      while i < |blobs|
        invariant 0 <= i <= |blobs|
        invariant ses.sent == old(ses.sent) + sentSoFar
        invariant SentBefore(steps, ses.accepts, i, sentSoFar)
      {
        ok := ForwardOne(settings, blobs, lib, ses, i, sentSoFar);
        if !ok {
          return;
        }
        sentSoFar := sentSoFar + [steps[i].value];
        i := i + 1;
      }
      SentBeforeDone(steps, ses.accepts, sentSoFar);
      ok := true;
    }

    /** One round of the forEach: object i is processed and sent; either
        the batch moves on to the next object or it ends here. */
    method ForwardOne(settings: Settings, blobs: seq<Blob>, lib: Library, ses: Mailer,
                      i: nat, ghost sentSoFar: seq<Outbound>) returns (ok: bool)
      requires i < |blobs| && SentBefore(Rewrites(settings, lib, blobs), ses.accepts, i, sentSoFar)
      modifies ses
      ensures ok == Delivered(Rewrites(settings, lib, blobs)[i], ses.accepts)
      ensures ok ==> ses.sent == old(ses.sent) + [Rewrites(settings, lib, blobs)[i].value]
      ensures ok ==> SentBefore(Rewrites(settings, lib, blobs), ses.accepts, i + 1,
                                sentSoFar + [Rewrites(settings, lib, blobs)[i].value])
      ensures !ok ==> ses.sent == old(ses.sent)
      ensures !ok ==> Forward(Rewrites(settings, lib, blobs), ses.accepts) == Run(false, sentSoFar)
    {
      ghost var steps := Rewrites(settings, lib, blobs);
      assert steps[i] == Rewrite(settings, lib, blobs[i]);
      ok := ProcessEachObject(settings, blobs[i], lib, ses);
      if ok {
        SentBeforeAdvance(steps, ses.accepts, i, sentSoFar);
      } else {
        SentBeforeStop(steps, ses.accepts, i, sentSoFar);
      }
    }
  }
}
