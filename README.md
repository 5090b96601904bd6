# kotlin-ses-forward, modelled in Dafny

kotlin-ses-forward is an AWS Lambda that forwards mail. SES receives a
mail and stores it in S3. The S3 event then triggers the Lambda, which:

- fetches every stored object named by the event;
- parses each one as a MIME message;
- picks its body: the HTML normalised by Jsoup, else the plain text;
- builds a new multipart message: the body first, then every attachment
  in order;
- sends it through SES to a fixed recipient list, with a configured
  sender and a subject prefix.

The handler answers `"OK"` when the whole batch went out. It answers
`"ERROR"` at the first failure, and the rest of the batch is not
processed.

The model covers three parts of the repository:

- **The configuration of the current handler** (`Config.kt`).
  - `subjectPrefix`, `regionId` and `mailFrom` let a non-empty
    environment variable override the value from the configuration file.
  - `mailTo` and `getMailToSafe` read only `MAIL_TO`, and the file has no
    value for them. When it is unset or empty, `mailTo` throws
    `MAIL_TO_UNDEFINED` and `getMailToSafe` returns the empty list.
  - `region()` reads no variable itself. It goes through `regionId`, and
    a blank id gives the default region.
  - `normalizeEmail` strips a `+tag` alias.
  - `getMailFromForDestination` picks the From address for a
    destination.
- **The current handler** (`Main.kt`): `handleRequest`,
  `processEachObject` and `createMimeMessage`.
- **The legacy handler** (`S3ReceiveMailEventHandler.kt`). It differs
  from the current one in several ways:
  - its configuration file holds a single sender;
  - its subject prefix is fixed to `"SES FW: "`;
  - it answers a lowercase `"ok"` for an empty event;
  - it returns `"ERROR"` from inside the per-object loop;
  - it checks a mail in a different order.

The files, module by module:

| file | module | what it holds |
|---|---|---|
| `Wrappers.dfy` | Wrappers | `Option` and `Result` |
| `Text.dfy` | Text | the Kotlin string functions the configuration uses: `isWhitespace`, `isBlank`, `indexOf`, `lastIndexOf`, `split(",")`, `trim()` |
| `Config.dfy` | Config | `Config.kt`. The environment is an explicit map, and an absent key stands for a null `System.getenv` |
| `ConfigExamples.dfy` | ConfigExamples | the cases of `ConfigTest.kt`, stated against the model |
| `Mime.dfy` | Mime | the message model and body selection. It also holds the assembly of the multipart, as a `Multipart` class whose `AddBodyPart` appends in place |
| `Batch.dfy` | Batch | what both handlers share: the fetch of every object before any is processed, the forward-until-first-failure run, and SES as a `Mailer` class that logs what it accepted |
| `App.dfy` | App | `Main.kt`. The handler is a `Main` class whose `HandleRequest` rebuilds the S3 and SES clients for the configured region |
| `Legacy.dfy` | Legacy | `S3ReceiveMailEventHandler.kt`, and two lemmas that compare it with `Main.kt` |

Library behaviour is not modelled. The handlers call these but do not
define them:

- the MIME parser;
- Jsoup's `parse(...).outerHtml()`;
- the syntax check in the `InternetAddress` constructor;
- whether SES accepts a message.

Each one is a function-valued parameter. The methods follow the loops
and the branching of the Kotlin code. Each method is proved against a
function:

- `Handle` describes the whole invocation.
- `Rewrite` describes processing one object. It yields a `Fault` at the
  place where the Kotlin code throws.
- `Forward` describes the batch.

The lemmas state what the handlers promise about those functions.

Neither handler calls `getMailFromForDestination`, and neither sets a
Reply-To header. From is the configured sender list (`Main.kt:111`) or
the configured sender (the legacy handler).

## Model

| member | source | states |
|---|---|---|
| Text.IndexOf | app/src/main/kotlin/tech/nakamata/models/Config.kt:128 | the result is -1 exactly when the character is absent, and otherwise the index of its first occurrence |
| Text.LastIndexOf | app/src/main/kotlin/tech/nakamata/models/Config.kt:125 | the result is -1 exactly when the character is absent, and otherwise the index of its last occurrence |
| Text.Split | app/src/main/kotlin/tech/nakamata/models/Config.kt:34 | split(",") gives one piece more than there are separators; no piece contains the separator; joining the pieces gives the input back |
| Text.SplitJoin | app/src/main/kotlin/tech/nakamata/models/Config.kt:34 | splitting undoes joining for separator-free pieces, so split and join are inverse |
| Text.IsWhitespace | app/src/main/kotlin/tech/nakamata/models/Config.kt:25 | the space, tab, newline and carriage return are whitespace; ',', '@' and '+' are not, so trimming never removes a separator |
| Text.BlankIffAllWhitespace | app/src/main/kotlin/tech/nakamata/models/Config.kt:73 | isBlank() holds exactly when every character is whitespace |
| Text.Trim | app/src/main/kotlin/tech/nakamata/models/Config.kt:25 | trim() leaves no whitespace at either end, and its result is empty exactly when the input is blank |
| Text.TrimPadded | app/src/main/kotlin/tech/nakamata/models/Config.kt:25 | trim() removes exactly the blank padding around a non-empty trimmed core |
| Text.SplitAndTrim | app/src/main/kotlin/tech/nakamata/models/Config.kt:34 | `split(",").map { it.trim() }`: one entry per comma-separated piece, each the trimmed piece, each trimmed and free of commas |
| Text.SplitAndTrimPair | app/src/test/kotlin/tech/nakamata/models/ConfigTest.kt:224-225 | two trimmed items joined by ", " come back as the two items |
| Text.SplitAndTrimJoined | app/src/test/kotlin/tech/nakamata/models/ConfigTest.kt:44-45 | two trimmed items joined by "," come back as the two items |
| Config.NormalizeEmail | app/src/main/kotlin/tech/nakamata/models/Config.kt:124-132 | the first '+' at p and the last '@' at a, with 0 < p < a, are cut out as email[..p] + email[a..], which is strictly shorter; any other address is returned unchanged |
| Config.NormalizeLeavesUntagged | app/src/main/kotlin/tech/nakamata/models/Config.kt:125-129 | the pass-through cases: no '@', the last '@' at index 0, no '+', the first '+' at index 0, or the first '+' after the last '@' |
| Config.NormalizeKeepsDomain | app/src/main/kotlin/tech/nakamata/models/Config.kt:131 | everything from the last '@' on ends the normalised address |
| Config.NormalizeIdempotent | app/src/main/kotlin/tech/nakamata/models/Config.kt:124-132 | normalising twice is normalising once |
| Config.Getenv | app/src/main/kotlin/tech/nakamata/models/Config.kt:14 | getenv yields a value exactly when the variable is set, and then its value |
| Config.IsNullOrEmpty | app/src/main/kotlin/tech/nakamata/models/Config.kt:15 | an unset or empty value counts; a set, non-empty value does not, even when it is whitespace only |
| Config.Config.SubjectPrefix | app/src/main/kotlin/tech/nakamata/models/Config.kt:12-20 | SUBJECT_PREFIX verbatim when it is set and non-empty, otherwise the configured prefix |
| Config.Config.RegionId | app/src/main/kotlin/tech/nakamata/models/Config.kt:21-29 | REGION_ID trimmed when it is set and non-empty, otherwise the configured id |
| Config.Config.MailFrom | app/src/main/kotlin/tech/nakamata/models/Config.kt:30-38 | MAIL_FROM split and trimmed when it is set and non-empty: one sender per comma-separated piece, each trimmed and comma-free. Otherwise the configured list |
| Config.Config.MailTo | app/src/main/kotlin/tech/nakamata/models/Config.kt:46-54 | MAIL_TO split and trimmed when it is set and non-empty; otherwise exactly the IllegalArgumentException with its message |
| Config.Config.MailToSafe | app/src/main/kotlin/tech/nakamata/models/Config.kt:62-69 | the same list as mailTo where mailTo succeeds, and the empty list where it throws |
| Config.Config.Region | app/src/main/kotlin/tech/nakamata/models/Config.kt:71-79 | the default region exactly when regionId is blank; otherwise the region named by regionId |
| Config.Config.DefaultMailFrom | app/src/main/kotlin/tech/nakamata/models/Config.kt:109-115 | the sender at index DEFAULT_MAIL_FROM_INDEX when there is one, else "noreply@example.com" |
| Config.Config.MailFromForDestination | app/src/main/kotlin/tech/nakamata/models/Config.kt:88-102 | the result is always a configured sender, or the fallback literal when there is none. A null or blank destination gives the default sender. Otherwise the result is the default sender or the normalised destination |
| Config.ResolverPicksVerifiedAlias | app/src/main/kotlin/tech/nakamata/models/Config.kt:94-101 | a non-blank destination whose normalised form is a configured sender is answered with that form; otherwise it gets the default sender |
| Config.ResolverFallbackIff | app/src/main/kotlin/tech/nakamata/models/Config.kt:109-115 | the fallback literal comes out exactly when no sender is configured |
| Config.BlankRegionEnvGivesDefault | app/src/main/kotlin/tech/nakamata/models/Config.kt:71-79 | a whitespace-only REGION_ID overrides the configured id with "", so region() is the default region |
| ConfigExamples.TagOfParts | app/src/main/kotlin/tech/nakamata/models/Config.kt:124-132 | local + "+tag" + "@domain" normalises to local + "@domain" |
| ConfigExamples.NormalizePlainTestCase | app/src/test/kotlin/tech/nakamata/models/ConfigTest.kt:135 | "user@example.com" is unchanged |
| ConfigExamples.NormalizeAliasTestCase | app/src/test/kotlin/tech/nakamata/models/ConfigTest.kt:136 | "user+alias@example.com" becomes "user@example.com" |
| ConfigExamples.NormalizeNumberTestCase | app/src/test/kotlin/tech/nakamata/models/ConfigTest.kt:137 | "user+123@example.com" becomes "user@example.com" |
| ConfigExamples.NormalizeTwiceTestCase | app/src/test/kotlin/tech/nakamata/models/ConfigTest.kt:138 | "user+alias+more@example.com" becomes "user@example.com" |
| ConfigExamples.NormalizeEmptyTagTestCase | app/src/test/kotlin/tech/nakamata/models/ConfigTest.kt:139 | "user+@example.com" becomes "user@example.com" |
| ConfigExamples.NormalizeAtFirstTestCase | app/src/test/kotlin/tech/nakamata/models/ConfigTest.kt:140 | "@example.com" is unchanged |
| ConfigExamples.NormalizeNoAtTestCase | app/src/test/kotlin/tech/nakamata/models/ConfigTest.kt:141 | "userexample.com" is unchanged |
| ConfigExamples.NormalizeEmptyTestCase | app/src/test/kotlin/tech/nakamata/models/ConfigTest.kt:142 | "" is unchanged |
| ConfigExamples.NormalizeAlias123TestCase | app/src/test/kotlin/tech/nakamata/models/ConfigTest.kt:120 | "user+alias123@example.com" becomes "user@example.com" |
| ConfigExamples.ResolverBlankTestCases | app/src/test/kotlin/tech/nakamata/models/ConfigTest.kt:74-85 | an empty destination and a destination of three spaces (lines 234-245) both give the first sender |
| ConfigExamples.ResolverVerifiedTestCase | app/src/test/kotlin/tech/nakamata/models/ConfigTest.kt:87-98 | a destination that is a configured sender is answered with itself |
| ConfigExamples.ResolverUnknownTestCase | app/src/test/kotlin/tech/nakamata/models/ConfigTest.kt:100-111 | an unknown destination gives the first sender |
| ConfigExamples.ResolverAliasTestCase | app/src/test/kotlin/tech/nakamata/models/ConfigTest.kt:113-124 | "user+alias123@example.com" is answered with the configured "user@example.com" |
| ConfigExamples.ResolverFallsBack | app/src/main/kotlin/tech/nakamata/models/Config.kt:97-101 | an untagged, non-blank destination that is not a configured sender gives the default sender |
| ConfigExamples.UnsetEnvironmentTestCase | app/src/test/kotlin/tech/nakamata/models/ConfigTest.kt:16-32 | without environment variables: the configured senders, region id and prefix; mailTo throws (lines 228-231); getMailToSafe is empty |
| ConfigExamples.RegionTestCase | app/src/test/kotlin/tech/nakamata/models/ConfigTest.kt:52-62 | a configured "us-west-2" gives that region |
| ConfigExamples.MailFromOfTwo | app/src/main/kotlin/tech/nakamata/models/Config.kt:30-38 | MAIL_FROM holding two trimmed senders joined by "," gives the two senders |
| ConfigExamples.MailFromEnvTestCase | app/src/test/kotlin/tech/nakamata/models/ConfigTest.kt:43-46 | MAIL_FROM "env1@example.com,env2@example.com" gives the two addresses |
| ConfigExamples.MailToOfTwo | app/src/main/kotlin/tech/nakamata/models/Config.kt:46-54 | MAIL_TO holding two trimmed recipients joined by ", " gives the two recipients |
| ConfigExamples.MailToTestCase | app/src/test/kotlin/tech/nakamata/models/ConfigTest.kt:223-226 | MAIL_TO "recipient1@example.com, recipient2@example.com" gives the two bare addresses |
| Mime.SelectBody | app/src/main/kotlin/tech/nakamata/Main.kt:67-71 | a body exists exactly when the mail has HTML or plain text. HTML wins, through outerHtml. Plain text is used verbatim only when there is no HTML |
| Mime.PlainOnlyWithoutHtml | app/src/main/kotlin/tech/nakamata/Main.kt:67-71 | the plain text is selected exactly when there is no HTML, or when the normalised HTML equals it |
| Mime.FirstInvalid | app/src/main/kotlin/tech/nakamata/Main.kt:73 | `map { InternetAddress(it) }` fails exactly when some address is refused, and then on the first refused one in list order |
| Mime.AttachmentParts | app/src/main/kotlin/tech/nakamata/Main.kt:99-105 | one file part per attachment, in order, carrying the attachment and its name as file name |
| Mime.AttachmentsRoundTrip | app/src/main/kotlin/tech/nakamata/Main.kt:99-105 | the attachments read back from the file parts, complete and in order |
| Mime.PartsOf | app/src/main/kotlin/tech/nakamata/Main.kt:92-106 | the body part first with its content type, then one file part per attachment in order, each carrying that attachment and named after it |
| Mime.BodyFirstAndOnly | app/src/main/kotlin/tech/nakamata/Main.kt:92-106 | the body is the only text part and sits at index 0; the remaining parts read back as the attachment list |
| Mime.Multipart.constructor | app/src/main/kotlin/tech/nakamata/Main.kt:92 | a new MimeMultipart has no parts |
| Mime.Multipart.AddBodyPart | app/src/main/kotlin/tech/nakamata/Main.kt:97 | addBodyPart appends the part at the end and changes nothing else |
| Mime.BuildMultipart | app/src/main/kotlin/tech/nakamata/Main.kt:92-106 | the multipart built part by part holds exactly PartsOf(body, type, attachments) |
| Batch.FetchAll | app/src/main/kotlin/tech/nakamata/sevices/S3Service.kt:16-30 | the fetch succeeds exactly when every getObject succeeds, and then it gives one blob per record, in record order |
| Batch.Forward | app/src/main/kotlin/tech/nakamata/Main.kt:52 | the forEach sends at most one message per object |
| Batch.ForwardStopsAtFirstFailure | app/src/main/kotlin/tech/nakamata/Main.kt:50-56 | every message sent belongs to a delivered object, in order. The run succeeds exactly when all were sent. On failure, the object after the last sent one was not delivered |
| Batch.ForwardOkIff | app/src/main/kotlin/tech/nakamata/Main.kt:50-58 | the batch succeeds exactly when every object is delivered, and then the messages sent are the objects' messages in order |
| Batch.Mailer.constructor | app/src/main/kotlin/tech/nakamata/sevices/SesService.kt:11-15 | a new client has sent nothing |
| Batch.Mailer.Send | app/src/main/kotlin/tech/nakamata/sevices/SesService.kt:17-26 | an accepted message is appended to what was sent; a refused one throws and leaves it unchanged |
| App.Compose | app/src/main/kotlin/tech/nakamata/Main.kt:92-115 | From is the configured sender list; To is the given recipients; the subject is the prefix plus the original subject, in UTF-8; the content type given to setContent is "text/html;" (for a multipart, javax.mail keeps the multipart's own type); the body part comes first, then one file part per attachment in order, named after it |
| App.SettingsOf | app/src/main/kotlin/tech/nakamata/Main.kt:73-113 | the senders and the subject prefix are the getters' values; MAIL_TO fails exactly when it is unset or empty, and otherwise gives getMailToSafe's list |
| App.Rewrite | app/src/main/kotlin/tech/nakamata/Main.kt:61-80 | a successful result parsed, had MAIL_TO set, goes out from the configured senders to exactly the MAIL_TO list, and every recipient is a valid address |
| App.Rewrites | app/src/main/kotlin/tech/nakamata/Main.kt:52 | one processing result per fetched object, in order |
| App.Handle | app/src/main/kotlin/tech/nakamata/Main.kt:41-59 | the answer is "OK" or "ERROR"; no records means "OK" with nothing sent; at most one message per record |
| App.FetchFailureSendsNothing | app/src/main/kotlin/tech/nakamata/Main.kt:50-56 | a failed getObject answers "ERROR" before any object is processed |
| App.HandleOkIff | app/src/main/kotlin/tech/nakamata/Main.kt:41-59 | a non-empty batch answers "OK" exactly when every object is fetched, rewritten and accepted. Then one message per record has been sent, in record order |
| App.HandleStopsAtFirstFailure | app/src/main/kotlin/tech/nakamata/Main.kt:50-56 | after a successful fetch, "ERROR" means each object before the failing one was sent as its own rewritten message, the failing one was not, and nothing after it was processed |
| App.RewriteSucceedsIff | app/src/main/kotlin/tech/nakamata/Main.kt:61-83 | a mail is forwarded exactly when it parses, has a body, MAIL_TO is set, every recipient is a valid address and the subject is present |
| App.ContentCheckedBeforeRecipients | app/src/main/kotlin/tech/nakamata/Main.kt:67-73 | a mail without a body fails with "Invalid content." whatever MAIL_TO holds; a missing MAIL_TO is reported only for a mail with a body |
| App.ForwardedMessage | app/src/main/kotlin/tech/nakamata/Main.kt:92-115 | From is the configured senders; To is every MAIL_TO entry; the subject is the prefix plus the original subject, in UTF-8; the body comes first and the attachments follow in order, each part named after its attachment |
| App.OriginalRecipientsIgnored | app/src/main/kotlin/tech/nakamata/Main.kt:61-83 | two mails that parse alike except for their recipients are forwarded, or refused, identically: the original recipients do not affect the result |
| App.FromIgnoresDestination | app/src/main/kotlin/tech/nakamata/Main.kt:111 | two forwarded mails go out with the same From, whoever they were addressed to |
| App.Main.constructor | app/src/main/kotlin/tech/nakamata/Main.kt:29-35 | the handler holds its configuration and no clients yet |
| App.Main.CreateMimeMessage | app/src/main/kotlin/tech/nakamata/Main.kt:85-116 | the message built step by step is Compose of its inputs |
| App.Main.ProcessEachObject | app/src/main/kotlin/tech/nakamata/Main.kt:61-83 | the call succeeds exactly when Rewrite yields a message that SES accepts, and only then is that message sent |
| App.Main.HandleRequest | app/src/main/kotlin/tech/nakamata/Main.kt:41-59 | both clients are rebuilt for region(), before the empty check. The answer and the messages sent are those of Handle |
| App.Main.ForwardEach | app/src/main/kotlin/tech/nakamata/Main.kt:52 | the loop over the fetched objects answers and sends as Forward describes |
| App.Main.ForwardOne | app/src/main/kotlin/tech/nakamata/Main.kt:52 | one round of the loop: a delivered object adds its message and keeps the loop invariant; otherwise the batch ends with what was sent |
| Legacy.Rewrite | src/main/kotlin/tech/nakamata/S3ReceiveMailEventHandler.kt:49-93 | a successful result parsed, has a valid sender, goes out from that single sender to exactly the configured recipients, and every recipient is a valid address |
| Legacy.Rewrites | src/main/kotlin/tech/nakamata/S3ReceiveMailEventHandler.kt:48 | one processing result per fetched object, in order |
| Legacy.Handle | src/main/kotlin/tech/nakamata/S3ReceiveMailEventHandler.kt:37-118 | the answer is "ok", "OK" or "ERROR"; it is "ok" exactly when there are no records; at most one message per record |
| Legacy.ConfigFailureIsError | src/main/kotlin/tech/nakamata/S3ReceiveMailEventHandler.kt:43-47 | a configuration that cannot be loaded, or a region the SDK does not know, answers "ERROR" (lines 111-114) with nothing sent |
| Legacy.HandleOkIff | src/main/kotlin/tech/nakamata/S3ReceiveMailEventHandler.kt:48-117 | with the configuration loaded, a non-empty batch answers "OK" exactly when every object is fetched, rewritten and accepted; then one message per record was sent, in order |
| Legacy.HandleStopsAtFirstFailure | src/main/kotlin/tech/nakamata/S3ReceiveMailEventHandler.kt:106-109 | the `return "ERROR"` inside the loop leaves each earlier object sent as its own rewritten message, the failing one unsent and the later ones untouched |
| Legacy.RewriteSucceedsIff | src/main/kotlin/tech/nakamata/S3ReceiveMailEventHandler.kt:51-93 | a legacy mail is forwarded exactly when it parses, all configured recipients and the sender are valid addresses, and it has a subject and a body |
| Legacy.FetchFailureSendsNothing | src/main/kotlin/tech/nakamata/S3ReceiveMailEventHandler.kt:43-47 | with the configuration loaded, a failed getObject answers "ERROR" before any object is processed, with nothing sent |
| Legacy.NullSubjectBeforeNullContent | src/main/kotlin/tech/nakamata/S3ReceiveMailEventHandler.kt:73-78 | `subject!!` fails before `content!!`: with no subject the mail fails on it; with a subject and no body, it fails on the body |
| Legacy.ForwardedMessage | src/main/kotlin/tech/nakamata/S3ReceiveMailEventHandler.kt:70-93 | From is the single configured sender. To is every configured recipient. The subject is "SES FW: " plus the original subject, in the default charset. The body is text/html and comes first; the attachments follow in order, each part named after its attachment |
| Legacy.EmptyEventAnswersDiffer | src/main/kotlin/tech/nakamata/S3ReceiveMailEventHandler.kt:38-41 | an event without records answers "ok" here, but "OK" in the current handler |
| Legacy.CheckOrderDiffers | src/main/kotlin/tech/nakamata/S3ReceiveMailEventHandler.kt:56-71 | for a body-less mail with a refused recipient, the current handler fails on the content and the legacy one on the address |
| Legacy.ProcessObject | src/main/kotlin/tech/nakamata/S3ReceiveMailEventHandler.kt:49-104 | the loop body succeeds exactly when Rewrite yields a message that SES accepts, and only then is that message sent |
| Legacy.HandleRequest | src/main/kotlin/tech/nakamata/S3ReceiveMailEventHandler.kt:37-118 | the answer and the messages sent are those of Handle |
| Legacy.ForwardEach | src/main/kotlin/tech/nakamata/S3ReceiveMailEventHandler.kt:48-110 | the loop over the fetched objects answers and sends as Forward describes |
| Legacy.ForwardOne | src/main/kotlin/tech/nakamata/S3ReceiveMailEventHandler.kt:48-110 | one round of the loop: a delivered object adds its message and keeps the loop invariant; otherwise the handler returns with what was sent |

## Left out

- I/O and the AWS SDK are not modelled. This covers the Lambda context, logging, reading `config.json`, and the S3 and SES network calls. The environment is a map. The object store, and whether SES accepts a message, are function-valued parameters.
- The library calls are not modelled. This covers MIME parsing, Jsoup's HTML normalisation, and the address syntax of `InternetAddress`. The handlers only use their results, so each is an oracle in `Mime.Library`. MIME serialisation (`writeTo`) is not modelled either: a failure to serialise is folded into whether SES accepts the message (`Batch.Mailer.accepts`).
- Transport encodings are not modelled: RFC 2047 encoding of the subject, ISO-2022-JP conversion of the body, and the legacy handler's `out.toString().toByteArray()` re-encoding (`S3ReceiveMailEventHandler.kt:96-100`). The subject charset and content types are kept as data on the outbound message.
- `Main.kt:111` passes the `List<String>` of senders to `InternetAddress`, which has no such constructor. The model takes From to be the configured list as given, and does not validate it as an address.
- The lazy `config` of `Main.kt:30-32` is given to the `Main` constructor. When it fails to load, `handleRequest` throws at line 43, outside its try, and the Lambda invocation fails without an answer. That failure is not modelled.
- `Region.of` and the SDK's `Region` objects are not modelled. `Region` is the default region or a named id.
- The legacy `Regions.fromName` (`src/main/kotlin/tech/nakamata/models/Config.kt:11-13`) is the `knownRegion` parameter.
- The legacy `retrieveConfig` (`S3ReceiveMailEventHandler.kt:120-126`) is an `Option`.
- `parser.attachmentList` is never null in the parser, so `attachments!!` (`S3ReceiveMailEventHandler.kt:85`) cannot fail and is not modelled.
- The environment is read once per invocation, through `App.Settings`. The Kotlin getters re-read it on every access, but it does not change during an invocation.
- Batch.Forward: its own contract states only the length bound. Its full meaning is proved by the lemmas `Batch.ForwardStopsAtFirstFailure` and `Batch.ForwardOkIff`.
- App.Rewrite and Legacy.Rewrite: their own contracts state only what a successful result holds (From, To, valid recipients). When they succeed and where they fail is stated by `App.RewriteSucceedsIff`, `App.ContentCheckedBeforeRecipients`, `App.ForwardedMessage`, `Legacy.RewriteSucceedsIff`, `Legacy.NullSubjectBeforeNullContent` and `Legacy.ForwardedMessage`.
- Text.Trim: it is not stated as the exact slice of its input. `Text.TrimPadded` gives the same characterisation from the other side.
- `getObject` failures in the legacy S3 service (`src/main/kotlin/tech/nakamata/sevices/S3Service.kt:19-30`) follow the same `FetchAll` as the current one. `transferObject` is never called by the handlers and is not part of this model.
