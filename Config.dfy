/** The forwarder's configuration (app Config.kt): the getters that let an
    environment variable override a value from the configuration file, the
    "+tag" address normaliser and the From-address resolver. The process
    environment is an explicit map, absent keys standing for a null getenv. */
module Config {
  import opened Wrappers
  import opened Text

  /** The process environment as System.getenv sees it. */
  type Env = map<string, string>

  /** System.getenv(name): None when the variable is not set. */
  function Getenv(env: Env, name: string): (r: Option<string>)
    ensures r.Some? <==> name in env
    ensures r.Some? ==> r.value == env[name]
  {
    if name in env then Some(env[name]) else None
  }

  /** Kotlin's String?.isNullOrEmpty(): only an unset or empty value
      counts, so a whitespace-only value is set (unlike isNullOrBlank). */
  predicate IsNullOrEmpty(v: Option<string>)
    ensures IsNullOrEmpty(v) ==> v.None? || IsBlank(v.value)
    ensures v.Some? && v.value != [] ==> !IsNullOrEmpty(v)
  {
    v.None? || v.value == ""
  }

  const DEFAULT_MAIL_FROM_INDEX: nat := 0

  /** The From address used when no verified sender is configured. */
  const NO_REPLY: string := "noreply@example.com"

  const MAIL_TO_UNDEFINED: string :=
    "MAIL_TO environment variable is not defined or empty. This variable is required for the application to function correctly."

  /** What region() hands to the AWS clients: the default region
      (us-east-1) or the region named by a non-blank identifier. */
  datatype Region = DefaultRegion | RegionOf(id: string)

  /** The exception the mailTo getter throws. */
  datatype ConfigError = IllegalArgument(message: string)

  /** The first '+' starts an alias tag that can be stripped: it is at
      position p, the last '@' is at position a, and 0 < p < a. */
  predicate TagAt(email: string, p: int, a: int) {
    IsFirst(email, '+', p) && IsLast(email, '@', a) && 0 < p < a
  }

  /** normalizeEmail: strips the "+tag" from the local part of an address,
      keeping the text before the first '+' and the text from the last '@'
      on. Addresses without such a tag are returned as they are. */
  function NormalizeEmail(email: string): (r: string)
    ensures forall p, a {:trigger TagAt(email, p, a)} ::
      TagAt(email, p, a) ==> r == email[..p] + email[a..] && |r| < |email|
    ensures (forall p, a {:trigger TagAt(email, p, a)} :: !TagAt(email, p, a)) ==> r == email
    ensures |r| <= |email|
  {
    var at := LastIndexOf(email, '@');
    if at <= 0 then
      NoTagWithout(email, at, IndexOf(email, '+'));
      email
    else
      var plus := IndexOf(email, '+');
      if plus <= 0 || plus > at then
        NoTagWithout(email, at, plus);
        email
      else
        assert plus != at;
        assert TagAt(email, plus, at);
        TagIsUnique(email, plus, at);
        email[..plus] + email[at..]
  }

  /** When the index searches find no strippable tag, there is none. */
  lemma NoTagWithout(email: string, at: int, plus: int)
    requires at == LastIndexOf(email, '@') && plus == IndexOf(email, '+')
    requires at <= 0 || plus <= 0 || plus > at
    ensures forall p, a {:trigger TagAt(email, p, a)} :: !TagAt(email, p, a)
  {
    forall p, a | TagAt(email, p, a) ensures false {
      FirstIsUnique(email, '+', p, plus);
      LastIsUnique(email, '@', a, at);
    }
  }

  /** A strippable tag is determined by the address. */
  lemma TagIsUnique(email: string, p: int, a: int)
    requires TagAt(email, p, a)
    ensures forall p', a' {:trigger TagAt(email, p', a')} :: TagAt(email, p', a') ==> p' == p && a' == a
  {
    forall p', a' | TagAt(email, p', a') ensures p' == p && a' == a {
      FirstIsUnique(email, '+', p, p');
      LastIsUnique(email, '@', a, a');
    }
  }

  /** The pass-through cases of normalizeEmail: no '@', the last '@' first,
      no '+', the first '+' first, or the first '+' after the last '@'. */
  lemma NormalizeLeavesUntagged(email: string)
    ensures '@' !in email ==> NormalizeEmail(email) == email
    ensures IsLast(email, '@', 0) ==> NormalizeEmail(email) == email
    ensures '+' !in email ==> NormalizeEmail(email) == email
    ensures IsFirst(email, '+', 0) ==> NormalizeEmail(email) == email
    ensures forall p, a {:trigger IsFirst(email, '+', p), IsLast(email, '@', a)} ::
      IsFirst(email, '+', p) && IsLast(email, '@', a) && a < p ==> NormalizeEmail(email) == email
  {
    if '@' !in email || IsLast(email, '@', 0) || '+' !in email || IsFirst(email, '+', 0) {
      forall p, a | TagAt(email, p, a) ensures false {
        if IsLast(email, '@', 0) { LastIsUnique(email, '@', 0, a); }
        if IsFirst(email, '+', 0) { FirstIsUnique(email, '+', 0, p); }
      }
    }
    forall p, a | IsFirst(email, '+', p) && IsLast(email, '@', a) && a < p
      ensures NormalizeEmail(email) == email
    {
      forall p', a' | TagAt(email, p', a') ensures false {
        FirstIsUnique(email, '+', p, p');
        LastIsUnique(email, '@', a, a');
      }
    }
  }

  /** Everything from the last '@' on survives normalisation, at the end. */
  lemma NormalizeKeepsDomain(email: string, a: int)
    requires IsLast(email, '@', a)
    ensures var r := NormalizeEmail(email);
      |email| - a <= |r| && r[|r| - (|email| - a)..] == email[a..]
  {
    var r := NormalizeEmail(email);
    if p, a' :| TagAt(email, p, a') {
      LastIsUnique(email, '@', a, a');
      assert r == email[..p] + email[a..];
    }
  }

  /** Normalising twice is normalising once. */
  lemma NormalizeIdempotent(email: string)
    ensures NormalizeEmail(NormalizeEmail(email)) == NormalizeEmail(email)
  {
    var r := NormalizeEmail(email);
    if p, a :| TagAt(email, p, a) {
      assert r == email[..p] + email[a..];
      // In r, the last '@' sits at p and every '+' (if any) lies after it.
      assert r[p] == '@';
      assert r[p + 1..] == email[a + 1..];
      assert IsLast(r, '@', p);
      assert r[..p] == email[..p];
      NormalizeLeavesUntagged(r);
      if '+' in r {
        var q := IndexOf(r, '+');
        assert q != p;
        assert q > p;
      }
    }
  }

  /** The configuration file's values, each of which an environment variable
      may override when it is set to a non-empty value. */
  datatype Config = Config(
    configuredMailFrom: seq<string>,
    configuredRegionId: string,
    configuredSubjectPrefix: string)
  {
    /** subjectPrefix: SUBJECT_PREFIX verbatim when non-empty, else the
        configured prefix. */
    function SubjectPrefix(env: Env): (r: string)
      ensures !IsNullOrEmpty(Getenv(env, "SUBJECT_PREFIX")) ==> r == env["SUBJECT_PREFIX"]
      ensures IsNullOrEmpty(Getenv(env, "SUBJECT_PREFIX")) ==> r == configuredSubjectPrefix
    {
      var v := Getenv(env, "SUBJECT_PREFIX");
      if !IsNullOrEmpty(v) then v.value else configuredSubjectPrefix
    }

    /** regionId: REGION_ID trimmed when non-empty, else the configured id. */
    function RegionId(env: Env): (r: string)
      ensures !IsNullOrEmpty(Getenv(env, "REGION_ID")) ==> r == Trim(env["REGION_ID"]) && IsTrimmed(r)
      ensures IsNullOrEmpty(Getenv(env, "REGION_ID")) ==> r == configuredRegionId
    {
      var v := Getenv(env, "REGION_ID");
      if !IsNullOrEmpty(v) then Trim(v.value) else configuredRegionId
    }

    /** mailFrom: MAIL_FROM split on commas and trimmed when non-empty, else
        the configured list. */
    function MailFrom(env: Env): (r: seq<string>)
      ensures !IsNullOrEmpty(Getenv(env, "MAIL_FROM")) ==>
        && r == SplitAndTrim(env["MAIL_FROM"])
        && |r| == Count(env["MAIL_FROM"], ',') + 1
        && forall i :: 0 <= i < |r| ==> IsTrimmed(r[i]) && ',' !in r[i]
      ensures IsNullOrEmpty(Getenv(env, "MAIL_FROM")) ==> r == configuredMailFrom
    {
      var v := Getenv(env, "MAIL_FROM");
      if !IsNullOrEmpty(v) then SplitAndTrim(v.value) else configuredMailFrom
    }

    /** mailTo: MAIL_TO split on commas and trimmed; an unset or empty
        MAIL_TO throws IllegalArgumentException. There is no configured
        fallback. */
    function MailTo(env: Env): (r: Result<seq<string>, ConfigError>)
      ensures r.Success? <==> !IsNullOrEmpty(Getenv(env, "MAIL_TO"))
      ensures r.Success? ==>
        && r.value == SplitAndTrim(env["MAIL_TO"])
        && |r.value| == Count(env["MAIL_TO"], ',') + 1
        && forall i :: 0 <= i < |r.value| ==> IsTrimmed(r.value[i]) && ',' !in r.value[i]
      ensures r.Failure? ==> r.error == IllegalArgument(MAIL_TO_UNDEFINED)
    {
      var v := Getenv(env, "MAIL_TO");
      if !IsNullOrEmpty(v) then Success(SplitAndTrim(v.value))
      else Failure(IllegalArgument(MAIL_TO_UNDEFINED))
    }

    /** getMailToSafe: the same list as mailTo, but empty where mailTo
        would throw. */
    function MailToSafe(env: Env): (r: seq<string>)
      ensures MailTo(env).Success? ==> r == MailTo(env).value
      ensures MailTo(env).Failure? ==> r == []
    {
      var v := Getenv(env, "MAIL_TO");
      if !IsNullOrEmpty(v) then SplitAndTrim(v.value) else []
    }

    /** region(): the default region exactly when the region id is blank. */
    function Region(env: Env): (r: Region)
      ensures r == DefaultRegion <==> IsBlank(RegionId(env))
      ensures r.RegionOf? ==> r.id == RegionId(env)
    {
      var id := RegionId(env);
      if !IsBlank(id) then RegionOf(id) else DefaultRegion
    }

    /** getDefaultMailFrom: the first verified sender, or the fallback
        literal when none is configured. */
    function DefaultMailFrom(env: Env): (r: string)
      ensures MailFrom(env) != [] ==> r == MailFrom(env)[DEFAULT_MAIL_FROM_INDEX]
      ensures MailFrom(env) == [] ==> r == NO_REPLY
    {
      var senders := MailFrom(env);
      if |senders| > 0 then senders[DEFAULT_MAIL_FROM_INDEX] else NO_REPLY
    }

    /** getMailFromForDestination: the normalised destination when it is a
        verified sender, otherwise the default sender. The result is always
        a verified sender, or the fallback literal when there is none. */
    function MailFromForDestination(env: Env, destination: Option<string>): (r: string)
      ensures MailFrom(env) != [] ==> r in MailFrom(env)
      ensures MailFrom(env) == [] ==> r == NO_REPLY
      ensures destination.None? || IsBlank(destination.value) ==> r == DefaultMailFrom(env)
      ensures r == DefaultMailFrom(env) || (destination.Some? && r == NormalizeEmail(destination.value))
    {
      if destination.None? || IsBlank(destination.value) then DefaultMailFrom(env)
      else
        var normalized := NormalizeEmail(destination.value);
        if normalized in MailFrom(env) then normalized else DefaultMailFrom(env)
    }
  }

  /** A non-blank destination whose normalised form is a verified sender is
      answered from that sender, and only then is the default avoided. */
  lemma ResolverPicksVerifiedAlias(cfg: Config, env: Env, destination: string)
    requires !IsBlank(destination)
    ensures NormalizeEmail(destination) in cfg.MailFrom(env) ==>
      cfg.MailFromForDestination(env, Some(destination)) == NormalizeEmail(destination)
    ensures NormalizeEmail(destination) !in cfg.MailFrom(env) ==>
      cfg.MailFromForDestination(env, Some(destination)) == cfg.DefaultMailFrom(env)
  {
  }

  /** The fallback literal comes out exactly when no sender is configured
      (as long as the literal is not itself a configured sender). */
  lemma ResolverFallbackIff(cfg: Config, env: Env, destination: Option<string>)
    requires NO_REPLY !in cfg.MailFrom(env)
    ensures cfg.MailFromForDestination(env, destination) == NO_REPLY <==> cfg.MailFrom(env) == []
  {
  }

  /** A whitespace-only REGION_ID overrides the configured id and selects
      the default region, because it is non-empty but trims to nothing. */
  lemma BlankRegionEnvGivesDefault(cfg: Config, env: Env)
    requires "REGION_ID" in env && env["REGION_ID"] != [] && IsBlank(env["REGION_ID"])
    ensures cfg.RegionId(env) == ""
    ensures cfg.Region(env) == DefaultRegion
  {
  }
}
