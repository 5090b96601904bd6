/** The address cases pinned down by the configuration tests
    (app ConfigTest.kt), stated against the model. Each literal is first
    taken apart by a small lemma that does not mention the normaliser, and
    the general lemmas of module Config then give the result.

    The test-case lemmas take their addresses as parameters fixed by
    `requires` (`local == "user"`, ...) rather than writing the whole
    literal in the `ensures`. With a literal such as "user+alias@example.com"
    the solver unfolds the index searches character by character, and the
    proof becomes too expensive; on named parts the general lemmas apply
    directly. The statement is the same: each lemma holds for exactly the
    test's address. */
module ConfigExamples {
  import opened Wrappers
  import opened Text
  import opened Config

  /** An address assembled from a local part, a tag and a domain. */
  lemma TagOfParts(local: string, tag: string, domain: string)
    requires local != [] && '+' !in local
    requires tag != [] && tag[0] == '+' && '@' !in tag
    requires domain != [] && domain[0] == '@' && '@' !in domain[1..]
    ensures NormalizeEmail(local + tag + domain) == local + domain
  {
    var e := local + tag + domain;
    assert e[..|local|] == local;
    assert e[|local| + |tag|..] == domain;
    assert e[|local| + |tag| + 1..] == domain[1..];
    assert TagAt(e, |local|, |local| + |tag|);
  }

  lemma AtFirstOnly(e: string)
    requires e == "@example.com"
    ensures IsLast(e, '@', 0)
  {
    assert e[1..] == "example.com";
  }

  lemma NoPlus(e: string)
    requires e == "user" + "@example.com" || e == "userexample.com" || e == "unknown" + "@example.com"
    ensures '+' !in e
  {
  }

  /** The normalizeEmail cases of ConfigTest.kt that carry a tag: the
      address is written as local part, tag and domain. */
  lemma NormalizeAliasTestCase(local: string, tag: string, domain: string)
    requires local == "user" && tag == "+alias" && domain == "@example.com"
    ensures NormalizeEmail(local + tag + domain) == local + domain
  {
    TagOfParts(local, tag, domain);
  }

  lemma NormalizeAlias123TestCase(local: string, tag: string, domain: string)
    requires local == "user" && tag == "+alias123" && domain == "@example.com"
    ensures NormalizeEmail(local + tag + domain) == local + domain
  {
    TagOfParts(local, tag, domain);
  }

  lemma NormalizeNumberTestCase(local: string, tag: string, domain: string)
    requires local == "user" && tag == "+123" && domain == "@example.com"
    ensures NormalizeEmail(local + tag + domain) == local + domain
  {
    TagOfParts(local, tag, domain);
  }

  lemma NormalizeTwiceTestCase(local: string, tag: string, domain: string)
    requires local == "user" && tag == "+alias+more" && domain == "@example.com"
    ensures NormalizeEmail(local + tag + domain) == local + domain
  {
    TagOfParts(local, tag, domain);
  }

  lemma NormalizeEmptyTagTestCase(local: string, tag: string, domain: string)
    requires local == "user" && tag == "+" && domain == "@example.com"
    ensures NormalizeEmail(local + tag + domain) == local + domain
  {
    TagOfParts(local, tag, domain);
  }

  /** The normalizeEmail cases of ConfigTest.kt that pass through. */
  lemma NormalizePlainTestCase(e: string)
    requires e == "user@example.com"
    ensures NormalizeEmail(e) == e
  {
    NoPlus(e);
    NormalizeLeavesUntagged(e);
  }

  lemma NormalizeAtFirstTestCase(e: string)
    requires e == "@example.com"
    ensures NormalizeEmail(e) == e
  {
    AtFirstOnly(e);
    NormalizeLeavesUntagged(e);
  }

  lemma NormalizeNoAtTestCase(e: string)
    requires e == "userexample.com"
    ensures NormalizeEmail(e) == e
  {
    NoPlus(e);
    NormalizeLeavesUntagged(e);
  }

  lemma NormalizeEmptyTestCase()
    ensures NormalizeEmail("") == ""
  {
    NormalizeLeavesUntagged("");
  }

  lemma ThreeSpacesAreBlank(s: string)
    requires s == "   "
    ensures IsBlank(s) && s != ""
  {
    assert IsBlank(s[3..]);
    assert IsBlank(s[2..]);
    assert IsBlank(s[1..]);
  }

  /** With MAIL_FROM unset, the configured senders apply. */
  lemma UnsetMailFrom(cfg: Config)
    ensures cfg.MailFrom(map[]) == cfg.configuredMailFrom
  {
  }

  /** The getMailFromForDestination cases of ConfigTest.kt: an empty or a
      blank destination gives the default sender. */
  lemma ResolverBlankTestCases(cfg: Config)
    requires cfg == Config(["default@example.com", "support@example.com"], "us-west-2", "Test: ")
    ensures cfg.MailFromForDestination(map[], Some("")) == "default@example.com"
    ensures cfg.MailFromForDestination(map[], Some("   ")) == "default@example.com"
  {
    UnsetMailFrom(cfg);
    ThreeSpacesAreBlank("   ");
  }

  /** An address that starts with a visible character is not blank. */
  lemma VisibleStartNotBlank(s: string)
    requires s != [] && !IsWhitespace(s[0])
    ensures !IsBlank(s)
  {
  }

  /** A destination that is a verified sender answers from that sender. */
  lemma ResolverVerifiedTestCase(cfg: Config, local: string, domain: string)
    requires local == "user" && domain == "@example.com"
    requires cfg == Config(["default@example.com", local + domain, "support@example.com"], "us-west-2", "Test: ")
    ensures cfg.MailFromForDestination(map[], Some(local + domain)) == local + domain
  {
    UnsetMailFrom(cfg);
    NoPlus(local + domain);
    NormalizeLeavesUntagged(local + domain);
    VisibleStartNotBlank(local + domain);
    ResolverPicksVerifiedAlias(cfg, map[], local + domain);
  }

  /** A tagged destination answers from the verified sender it is an alias
      of. */
  lemma ResolverAliasTestCase(cfg: Config, local: string, tag: string, domain: string)
    requires local == "user" && tag == "+alias123" && domain == "@example.com"
    requires cfg == Config(["default@example.com", local + domain, "support@example.com"], "us-west-2", "Test: ")
    ensures cfg.MailFromForDestination(map[], Some(local + tag + domain)) == local + domain
  {
    UnsetMailFrom(cfg);
    NormalizeAlias123TestCase(local, tag, domain);
    VisibleStartNotBlank(local + tag + domain);
    ResolverPicksVerifiedAlias(cfg, map[], local + tag + domain);
  }

  /** An untagged destination that is not a verified sender falls back to
      the default sender. */
  lemma ResolverFallsBack(cfg: Config, destination: string)
    requires destination != [] && !IsWhitespace(destination[0]) && '+' !in destination
    requires destination !in cfg.configuredMailFrom
    ensures cfg.MailFromForDestination(map[], Some(destination)) == cfg.DefaultMailFrom(map[])
  {
    UnsetMailFrom(cfg);
    NormalizeLeavesUntagged(destination);
    VisibleStartNotBlank(destination);
    ResolverPicksVerifiedAlias(cfg, map[], destination);
  }

  /** An unknown destination falls back to the first sender. */
  lemma ResolverUnknownTestCase(cfg: Config, local: string, domain: string)
    requires local == "unknown" && domain == "@example.com"
    requires cfg == Config(["default" + domain, "support" + domain], "us-west-2", "Test: ")
    ensures cfg.MailFromForDestination(map[], Some(local + domain)) == "default" + domain
  {
    var e := local + domain;
    assert e[0] == 'u';
    assert e !in cfg.configuredMailFrom by {
      assert cfg.configuredMailFrom[0][0] == 'd' && cfg.configuredMailFrom[1][0] == 's';
    }
    NoPlus(e);
    ResolverFallsBack(cfg, e);
    UnsetMailFrom(cfg);
  }

  /** Two trimmed, comma-free recipients joined by a comma and a space
      come out of MAIL_TO as the two recipients. */
  lemma MailToOfTwo(cfg: Config, first: string, second: string)
    requires first != [] && IsTrimmed(first) && ',' !in first
    requires second != [] && IsTrimmed(second) && ',' !in second
    ensures cfg.MailTo(map["MAIL_TO" := first + [',', ' '] + second]) == Success([first, second])
  {
    var env := map["MAIL_TO" := first + [',', ' '] + second];
    assert Getenv(env, "MAIL_TO") == Some(first + [',', ' '] + second);
    SplitAndTrimPair(first, second);
  }

  /** The mailTo example of ConfigTest.kt: two recipients separated by a
      comma and a space come out as the two bare addresses. */
  lemma MailToTestCase(cfg: Config, first: string, second: string)
    requires first == "recipient1@example.com" && second == "recipient2@example.com"
    ensures cfg.MailTo(map["MAIL_TO" := first + [',', ' '] + second]) == Success([first, second])
  {
    assert first[0] == 'r' && first[|first| - 1] == 'm';
    assert second[0] == 'r' && second[|second| - 1] == 'm';
    MailToOfTwo(cfg, first, second);
  }

  /** Without any environment variable the configured values apply, and
      mailTo throws because it has no configured fallback. */
  lemma UnsetEnvironmentTestCase(cfg: Config)
    ensures cfg.MailFrom(map[]) == cfg.configuredMailFrom
    ensures cfg.RegionId(map[]) == cfg.configuredRegionId
    ensures cfg.SubjectPrefix(map[]) == cfg.configuredSubjectPrefix
    ensures cfg.MailTo(map[]) == Failure(IllegalArgument(MAIL_TO_UNDEFINED))
    ensures cfg.MailToSafe(map[]) == []
  {
  }

  /** The region example: a configured "us-west-2" names that region. */
  lemma RegionTestCase(cfg: Config, id: string)
    requires id == "us-west-2"
    requires cfg == Config(["test@example.com"], id, "Test: ")
    ensures cfg.Region(map[]) == RegionOf(id)
  {
    assert id[0] == 'u';
    VisibleStartNotBlank(id);
  }

  /** Two trimmed, comma-free senders joined by a comma come out of
      MAIL_FROM as the two senders. */
  lemma MailFromOfTwo(cfg: Config, first: string, second: string)
    requires first != [] && IsTrimmed(first) && ',' !in first
    requires second != [] && IsTrimmed(second) && ',' !in second
    ensures cfg.MailFrom(map["MAIL_FROM" := first + [','] + second]) == [first, second]
  {
    var env := map["MAIL_FROM" := first + [','] + second];
    assert Getenv(env, "MAIL_FROM") == Some(first + [','] + second);
    SplitAndTrimJoined(first, second);
  }

  /** The mailFrom example of ConfigTest.kt: MAIL_FROM overrides the
      configured list. */
  lemma MailFromEnvTestCase(cfg: Config, first: string, second: string)
    requires first == "env1@example.com" && second == "env2@example.com"
    ensures cfg.MailFrom(map["MAIL_FROM" := first + [','] + second]) == [first, second]
  {
    assert first[0] == 'e' && first[|first| - 1] == 'm';
    assert second[0] == 'e' && second[|second| - 1] == 'm';
    MailFromOfTwo(cfg, first, second);
  }
}
