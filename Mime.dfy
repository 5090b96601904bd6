/** The message model shared by both handlers: what the MIME parser yields
    for a received mail, the parts of the outbound multipart, the outbound
    message itself, and the library behaviour (parsing, HTML
    normalisation, address syntax) the handlers rely on but do not define. */
module Mime {
  import opened Wrappers

  newtype byte = x: int | 0 <= x < 256

  /** Raw bytes of a stored mail object. */
  type Blob = seq<byte>

  /** An attachment data source: its name, its content type and its bytes. */
  datatype Attachment = Attachment(name: string, contentType: string, data: Blob)

  /** What MimeMessageParser exposes after parse(): each accessor that can
      answer null is an Option. */
  datatype ParsedMessage = ParsedMessage(
    subject: Option<string>,
    recipients: seq<string>,
    html: Option<string>,
    plain: Option<string>,
    attachments: seq<Attachment>)

  /** One body part of the outbound multipart: the text body with its
      content type, or a file part carrying a data source and a file name. */
  datatype Part =
    | BodyPart(text: string, contentType: string)
    | FilePart(fileName: string, source: Attachment)

  /** The outbound message before serialisation: the From header (the
      addresses given to setFrom), the To recipients, the subject with the
      charset it is encoded in (None: the platform default), the multipart
      parts in order and the content type given to setContent (None: the
      multipart's own). */
  datatype Outbound = Outbound(
    from: seq<string>,
    to: seq<string>,
    subject: string,
    subjectCharset: Option<string>,
    parts: seq<Part>,
    contentType: Option<string>)

  /** Why processing one stored mail failed. */
  datatype Fault =
    | ParseError                    // the bytes are not a parseable MIME message
    | InvalidContent                // neither HTML nor plain text (current handler)
    | MailToUndefined               // MAIL_TO unset or empty (current handler)
    | InvalidAddress(address: string) // InternetAddress refused an address
    | NullSubject                   // the parsed subject was null
    | NullContent                   // the selected body was null (legacy handler)

  /** Library behaviour the handlers call but do not define: the MIME
      parser (None when it throws), Jsoup's parse-and-outerHtml, and the
      syntax check of the InternetAddress constructor. */
  datatype Library = Library(
    parse: Blob -> Option<ParsedMessage>,
    outerHtml: string -> string,
    isAddress: string -> bool)

  /** The body-selection `when` of both handlers: the normalised HTML body
      if there is one, else the plain-text body, else nothing. */
  function SelectBody(msg: ParsedMessage, outerHtml: string -> string): (r: Option<string>)
    ensures r.Some? <==> msg.html.Some? || msg.plain.Some?
    ensures msg.html.Some? ==> r == Some(outerHtml(msg.html.value))
    ensures msg.html.None? ==> r == msg.plain
  {
    if msg.html.Some? then Some(outerHtml(msg.html.value))
    else if msg.plain.Some? then Some(msg.plain.value)
    else None
  }

  /** Plain text is used only for a message without HTML, and then
      verbatim. */
  lemma PlainOnlyWithoutHtml(msg: ParsedMessage, outerHtml: string -> string)
    requires msg.plain.Some?
    ensures SelectBody(msg, outerHtml) == Some(msg.plain.value) <==>
      msg.html.None? || outerHtml(msg.html.value) == msg.plain.value
  {
  }

  /** Address k is refused and every address before it is accepted. */
  predicate FirstRefusedAt(addresses: seq<string>, isAddress: string -> bool, k: int)
  {
    0 <= k < |addresses| && !isAddress(addresses[k]) &&
    forall i :: 0 <= i < k ==> isAddress(addresses[i])
  }

  /** The first address the InternetAddress constructor refuses, scanning
      in order; None when every address is accepted. */
  function FirstInvalid(addresses: seq<string>, isAddress: string -> bool): (r: Option<string>)
    ensures r.None? <==> forall i :: 0 <= i < |addresses| ==> isAddress(addresses[i])
    ensures r.Some? ==> exists k :: FirstRefusedAt(addresses, isAddress, k) && addresses[k] == r.value
  {
    if addresses == [] then None
    else if !isAddress(addresses[0]) then
      assert FirstRefusedAt(addresses, isAddress, 0);
      Some(addresses[0])
    else
      var r := FirstInvalid(addresses[1..], isAddress);
      if r.None? then r
      else
        var k :| FirstRefusedAt(addresses[1..], isAddress, k) && addresses[1..][k] == r.value;
        assert FirstRefusedAt(addresses, isAddress, k + 1) by {
          forall i | 1 <= i < k + 1 ensures isAddress(addresses[i]) {
            assert addresses[i] == addresses[1..][i - 1];
          }
        }
        r
  }

  /** One file part per attachment, in order: the data source is attached
      as is and its name becomes the part's file name. */
  function AttachmentParts(attachments: seq<Attachment>): (r: seq<Part>)
    ensures |r| == |attachments|
    ensures forall i :: 0 <= i < |r| ==> r[i].FilePart? && r[i].source == attachments[i]
    ensures forall i :: 0 <= i < |r| ==> r[i].fileName == attachments[i].name
  {
    if attachments == [] then []
    else
      var n := |attachments| - 1;
      AttachmentParts(attachments[..n]) + [FilePart(attachments[n].name, attachments[n])]
  }

  /** The data sources of a run of file parts. */
  function SourcesOf(parts: seq<Part>): (r: seq<Attachment>)
    requires forall i :: 0 <= i < |parts| ==> parts[i].FilePart?
    ensures |r| == |parts|
  {
    if parts == [] then [] else [parts[0].source] + SourcesOf(parts[1..])
  }

  /** The attachments can be read back from the parts, in order and
      complete. */
  lemma {:induction false} AttachmentsRoundTrip(attachments: seq<Attachment>)
    ensures SourcesOf(AttachmentParts(attachments)) == attachments
  {
    var parts := AttachmentParts(attachments);
    if attachments != [] {
      assert AttachmentParts(attachments[1..]) == parts[1..];
      AttachmentsRoundTrip(attachments[1..]);
    }
  }

  /** The multipart of both handlers: the body part first, then one file
      part per attachment in input order. */
  function PartsOf(body: string, bodyType: string, attachments: seq<Attachment>): (r: seq<Part>)
    ensures |r| == |attachments| + 1
    ensures r[0] == BodyPart(body, bodyType)
    ensures forall i :: 0 < i < |r| ==>
      r[i].FilePart? && r[i].source == attachments[i - 1] && r[i].fileName == attachments[i - 1].name
  {
    [BodyPart(body, bodyType)] + AttachmentParts(attachments)
  }

  /** The body is the only text part and comes first; everything after it
      reads back as the attachment list. */
  lemma BodyFirstAndOnly(body: string, bodyType: string, attachments: seq<Attachment>)
    ensures forall i :: 0 <= i < |PartsOf(body, bodyType, attachments)| ==>
      (PartsOf(body, bodyType, attachments)[i].BodyPart? <==> i == 0)
    ensures SourcesOf(PartsOf(body, bodyType, attachments)[1..]) == attachments
  {
    var r := PartsOf(body, bodyType, attachments);
    assert r[1..] == AttachmentParts(attachments);
    AttachmentsRoundTrip(attachments);
  }

  /** A MimeMultipart under construction: the parts added so far. */
  class Multipart {
    var parts: seq<Part>

    constructor()
      ensures parts == []
    {
      parts := [];
    }

    /** addBodyPart appends a part at the end. */
    method AddBodyPart(p: Part)
      modifies this
      ensures parts == old(parts) + [p]
    {
      parts := parts + [p];
    }
  }

  /** The `MimeMultipart().apply { ... }` block: the body part is added,
      then each attachment in turn. */
  method BuildMultipart(body: string, bodyType: string, attachments: seq<Attachment>)
    returns (mp: Multipart)
    ensures fresh(mp)
    ensures mp.parts == PartsOf(body, bodyType, attachments)
  {
    mp := new Multipart();
    mp.AddBodyPart(BodyPart(body, bodyType));
    var i := 0;
    while i < |attachments|
      invariant 0 <= i <= |attachments|
      invariant mp.parts == [BodyPart(body, bodyType)] + AttachmentParts(attachments[..i])
    {
      assert attachments[..i + 1][..i] == attachments[..i];
      mp.AddBodyPart(FilePart(attachments[i].name, attachments[i]));
      i := i + 1;
    }
    assert attachments[..i] == attachments;
  }
}
