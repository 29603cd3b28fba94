/** Names the service publishes normalize to nothing sensitive. */
module SensitiveNames {
  import opened StatusPolicy

  ghost predicate Lacks(name: string, c: char) {
    forall i :: 0 <= i < |name| ==> LowerCase(name[i]) != c
  }

  lemma {:induction false} NormalizedLacks(name: string, n: nat, c: char)
    requires Lacks(name, c) && n <= |name|
    ensures c !in NormalizedPrefix(name, n)
  {
    if n > 0 {
      NormalizedLacks(name, n - 1, c);
    }
  }

  lemma {:induction false} IncludesNeeds(text: string, token: string, c: char)
    requires c in token && c !in text
    ensures !Includes(text, token)
  {
    var k :| 0 <= k < |token| && token[k] == c;
    forall i | 0 <= i <= |text| && i + |token| <= |text|
      ensures !FoundAt(text, token, i)
    {
      assert text[i..i + |token|][k] == text[i + k];
    }
  }

  /** Some character of `token` is in `missing`. */
  ghost predicate Hits(missing: string, token: string) {
    exists c :: c in missing && c in token
  }

  /** None of these letters occurs in the name, in either case. */
  ghost predicate LacksAll(name: string, missing: string) {
    forall c :: c in missing ==> Lacks(name, c)
  }

  lemma {:induction false} LacksBoth(a: string, b: string, missing: string)
    requires LacksAll(a, missing) && LacksAll(b, missing)
    ensures LacksAll(a + b, missing)
  {
    forall c | c in missing
      ensures Lacks(a + b, c)
    {
      assert Lacks(a, c) && Lacks(b, c);
    }
  }

  lemma {:induction false} MissingLettersMakeClean(name: string, missing: string)
    requires LacksAll(name, missing)
    requires forall t :: t in SENSITIVE_EXACT || t in SENSITIVE_TOKENS ==> Hits(missing, t)
    ensures !IsSensitiveName(name)
  {
    var normalized := NormalizedKey(name);
    forall t | t in SENSITIVE_EXACT || t in SENSITIVE_TOKENS
      ensures normalized != t && !Includes(normalized, t)
    {
      var c :| c in missing && c in t;
      NormalizedLacks(name, |name|, c);
      IncludesNeeds(normalized, t, c);
    }
  }

  /** The letters hit every sensitive name: each line is for the names that contain one of its letters. */
  ghost predicate Discerning(missing: string) {
    && ('p' in missing || ('i' in missing && 'a' in missing && 'l' in missing))
    && 'j' in missing && 'w' in missing && 'k' in missing
    && ('y' in missing || 'g' in missing)
    && ('h' in missing || 's' in missing || 'e' in missing || ('r' in missing && 'o' in missing))
    && ('s' in missing || 'c' in missing || 'r' in missing || 't' in missing || 'e' in missing)
    && ('c' in missing || 't' in missing || 'e' in missing || 'n' in missing || 'r' in missing)
    && ('c' in missing || 't' in missing || 'a' in missing || 'n' in missing || 'o' in missing)
  }

  lemma {:induction false} HitsExactNames(missing: string, t: string)
    requires Discerning(missing) && t in SENSITIVE_EXACT
    ensures Hits(missing, t)
  {
    assert 'p' in "ip" && 'p' in "ipaddress" && 'p' in "acceptedshares";
    assert 'i' in "ip" && 'i' in "ipaddress" && 'a' in "acceptedshares" && 'j' in "rejectedshares";
  }

  /** The tokens named for money, hosts and work. */
  const FIRST_TOKENS: seq<string> := ["wallet", "worker", "pool", "hashrate", "share", "hostname", "password"]

  lemma {:induction false} HitsFirstTokens(missing: string, t: string)
    requires Discerning(missing) && t in FIRST_TOKENS
    ensures Hits(missing, t)
  {
    assert && 'w' in "wallet"
           && 'w' in "worker"
           && 'p' in "pool"
           && 'l' in "pool"
           && 'p' in "password"
           && 'a' in "password";
    assert 'h' in "hashrate" && 's' in "hashrate" && 'e' in "hashrate" && 'r' in "hashrate";
    assert 'h' in "share" && 's' in "share" && 'e' in "share" && 'r' in "share";
    assert 'h' in "hostname" && 's' in "hostname" && 'e' in "hostname" && 'o' in "hostname";
  }

  lemma {:induction false} HitsLastTokens(missing: string, t: string)
    requires Discerning(missing) && t in SENSITIVE_TOKENS && t !in FIRST_TOKENS
    ensures Hits(missing, t)
  {
    assert 's' in "secret" && 'c' in "secret" && 'r' in "secret" && 't' in "secret" && 'e' in "secret";
    assert && 'k' in "token"
           && 'p' in "privatekey"
           && 'a' in "privatekey"
           && 'y' in "miningidentity"
           && 'g' in "miningidentity";
    assert && 'c' in "credential"
           && 't' in "credential"
           && 'e' in "credential"
           && 'n' in "credential"
           && 'r' in "credential";
    assert 'c' in "account" && 't' in "account" && 'a' in "account" && 'n' in "account" && 'o' in "account";
  }

  /** A name is clean if it lacks letters of every sensitive name. */
  lemma {:induction false} LackingIsClean(k: Key, name: string, missing: string)
    requires Spelling(k) == name && LacksAll(name, missing) && Discerning(missing)
    ensures !IsSensitiveKey(k)
  {
    forall t | t in SENSITIVE_EXACT || t in SENSITIVE_TOKENS
      ensures Hits(missing, t)
    {
      if t in SENSITIVE_EXACT { HitsExactNames(missing, t); }
      else if t in FIRST_TOKENS { HitsFirstTokens(missing, t); }
      else { HitsLastTokens(missing, t); }
    }
    MissingLettersMakeClean(name, missing);
  }

  // ----- names that have all letters of one token -----

  predicate Plain(name: string) {
    forall i :: 0 <= i < |name| ==> name[i] != '-' && name[i] != '_'
  }

  lemma {:induction false} NormalizedPlain(name: string, n: nat)
    requires n <= |name| && Plain(name)
    ensures |NormalizedPrefix(name, n)| == n
    ensures forall i :: 0 <= i < n ==> NormalizedPrefix(name, n)[i] == LowerCase(name[i])
  {
    if n > 0 {
      NormalizedPlain(name, n - 1);
    }
  }

  /** The two letters stand side by side nowhere in the name. */
  predicate Apart(name: string, a: char, b: char) {
    forall i :: 0 <= i < |name| - 1 ==> LowerCase(name[i]) != a || LowerCase(name[i + 1]) != b
  }

  /** A name without the first two letters of a token side by side does not include it. */
  lemma {:induction false} ApartExcludes(name: string, token: string)
    requires |token| >= 2 && Plain(name) && Apart(name, token[0], token[1])
    ensures !Includes(NormalizedKey(name), token)
  {
    var text := NormalizedKey(name);
    NormalizedPlain(name, |name|);
    forall i | 0 <= i <= |text| && i + |token| <= |text|
      ensures !FoundAt(text, token, i)
    {
      assert text[i..i + |token|][0] == text[i] && text[i..i + |token|][1] == text[i + 1];
    }
  }

  lemma {:induction false} ExactNamesHit(missing: string, t: string)
    requires 'p' in missing && 'j' in missing && t in SENSITIVE_EXACT
    ensures Hits(missing, t)
  {
    assert 'p' in "ip" && 'p' in "ipaddress" && 'p' in "acceptedshares" && 'j' in "rejectedshares";
  }

  lemma {:induction false} MostTokensHit(missing: string, t: string, token: string)
    requires t in SENSITIVE_TOKENS
    requires 'p' in missing && 'w' in missing && 'k' in missing && 'y' in missing && 'h' in missing
    requires (token == "secret" && 'a' in missing) || (token == "account" && 's' in missing && 'd' in missing)
    ensures t == token || Hits(missing, t)
  {
    assert && 'w' in "wallet"
           && 'w' in "worker"
           && 'p' in "pool"
           && 'h' in "hashrate"
           && 'h' in "share"
           && 'h' in "hostname";
    assert 'p' in "password" && 'k' in "token" && 'p' in "privatekey" && 'y' in "miningidentity";
    assert 'a' in "credential" && 'd' in "credential" && 'a' in "account" && 's' in "secret";
  }

  lemma {:induction false} CleanBut(k: Key, name: string, missing: string, token: string)
    requires Spelling(k) == name && LacksAll(name, missing) && Plain(name)
    requires |token| >= 2 && Apart(name, token[0], token[1])
    requires forall t :: t in SENSITIVE_EXACT || t in SENSITIVE_TOKENS ==> t == token || Hits(missing, t)
    ensures !IsSensitiveKey(k)
  {
    var text := NormalizedKey(name);
    ApartExcludes(name, token);
    forall t | t in SENSITIVE_EXACT || t in SENSITIVE_TOKENS
      ensures text != t && !Includes(text, t)
    {
      if t != token {
        var c :| c in missing && c in t;
        NormalizedLacks(name, |name|, c);
        IncludesNeeds(text, t, c);
      } else {
        assert text == t ==> FoundAt(text, t, 0);
      }
    }
  }

  // ----- the names -----

  lemma {:induction false} LowerLacks(name: string, lower: string, missing: string)
    requires |name| == |lower| && forall i :: 0 <= i < |name| ==> LowerCase(name[i]) == lower[i]
    requires forall c :: c in missing ==> c !in lower
    ensures LacksAll(name, missing)
  {
    forall c | c in missing
      ensures Lacks(name, c)
    {
      assert forall i :: 0 <= i < |name| ==> lower[i] in lower;
    }
  }

  lemma {:induction false} ImageIdIsClean()
    ensures !IsSensitiveKey(ImageId)
  {
    LowerLacks("imageId", "imageid", "pjwkyhc");
    LackingIsClean(ImageId, "imageId", "pjwkyhc");
  }

  lemma {:induction false} ImageVersionIsClean()
    ensures !IsSensitiveKey(ImageVersion)
  {
    LowerLacks("image", "image", "pjwkyhc");
    LowerLacks("Version", "version", "pjwkyhc");
    LacksBoth("image", "Version", "pjwkyhc");
    assert "image" + "Version" == "imageVersion";
    LackingIsClean(ImageVersion, "imageVersion", "pjwkyhc");
  }

  lemma {:induction false} ChannelIsClean()
    ensures !IsSensitiveKey(Channel)
  {
    LowerLacks("channel", "channel", "pjwkyst");
    LackingIsClean(Channel, "channel", "pjwkyst");
  }

  lemma {:induction false} BuildIdIsClean()
    ensures !IsSensitiveKey(BuildId)
  {
    LowerLacks("buildId", "buildid", "pjwkyhc");
    LackingIsClean(BuildId, "buildId", "pjwkyhc");
  }

  lemma {:induction false} BuildCommitIsClean()
    ensures !IsSensitiveKey(BuildCommit)
  {
    LowerLacks("build", "build", "pjwkysn");
    LowerLacks("Commit", "commit", "pjwkysn");
    LacksBoth("build", "Commit", "pjwkysn");
    assert "build" + "Commit" == "buildCommit";
    LackingIsClean(BuildCommit, "buildCommit", "pjwkysn");
  }

  lemma {:induction false} ArchitectureIsClean()
    ensures !IsSensitiveKey(Architecture)
  {
    LowerLacks("archi", "archi", "pjwkysn");
    LowerLacks("tecture", "tecture", "pjwkysn");
    LacksBoth("archi", "tecture", "pjwkysn");
    assert "archi" + "tecture" == "architecture";
    LackingIsClean(Architecture, "architecture", "pjwkysn");
  }

  lemma {:induction false} SchemaIsClean()
    ensures !IsSensitiveKey(Schema)
  {
    LowerLacks("schema", "schema", "pjwkyrot");
    LackingIsClean(Schema, "schema", "pjwkyrot");
  }

  lemma {:induction false} ObservedAtIsClean()
    ensures !IsSensitiveKey(ObservedAt)
  {
    LowerLacks("observed", "observed", "pjwkyhc");
    LowerLacks("At", "at", "pjwkyhc");
    LacksBoth("observed", "At", "pjwkyhc");
    assert "observed" + "At" == "observedAt";
    LackingIsClean(ObservedAt, "observedAt", "pjwkyhc");
  }

  lemma {:induction false} SourceIdIsClean()
    ensures !IsSensitiveKey(SourceId)
  {
    LowerLacks("sourceId", "sourceid", "pjwkyht");
    LackingIsClean(SourceId, "sourceId", "pjwkyht");
  }

  lemma {:induction false} BootIdHashIsClean()
    ensures !IsSensitiveKey(BootIdHash)
  {
    LowerLacks("bootId", "bootid", "pjwkyec");
    LowerLacks("Hash", "hash", "pjwkyec");
    LacksBoth("bootId", "Hash", "pjwkyec");
    assert "bootId" + "Hash" == "bootIdHash";
    LackingIsClean(BootIdHash, "bootIdHash", "pjwkyec");
  }

  lemma {:induction false} ReleaseIsClean()
    ensures !IsSensitiveKey(Release)
  {
    LowerLacks("release", "release", "pjwkyhc");
    LackingIsClean(Release, "release", "pjwkyhc");
  }

  lemma {:induction false} HealthIsClean()
    ensures !IsSensitiveKey(Health)
  {
    LowerLacks("health", "health", "pjwkysc");
    LackingIsClean(Health, "health", "pjwkysc");
  }

  lemma {:induction false} ComponentsIsClean()
    ensures !IsSensitiveKey(Components)
  {
    LowerLacks("compo", "compo", "ialjwkyhr");
    LowerLacks("nents", "nents", "ialjwkyhr");
    LacksBoth("compo", "nents", "ialjwkyhr");
    assert "compo" + "nents" == "components";
    LackingIsClean(Components, "components", "ialjwkyhr");
  }

  lemma {:induction false} ProductIsClean()
    ensures !IsSensitiveKey(Product)
  {
    LowerLacks("product", "product", "ialjwkyhsen");
    LackingIsClean(Product, "product", "ialjwkyhsen");
  }

  lemma {:induction false} VersionIsClean()
    ensures !IsSensitiveKey(Version)
  {
    LowerLacks("version", "version", "pjwkyhc");
    LackingIsClean(Version, "version", "pjwkyhc");
  }

  lemma {:induction false} StatusIsClean()
    ensures !IsSensitiveKey(Status)
  {
    LowerLacks("status", "status", "pjwkyhc");
    LackingIsClean(Status, "status", "pjwkyhc");
  }

  lemma {:induction false} ExitCodeIsClean()
    ensures !IsSensitiveKey(ExitCode)
  {
    LowerLacks("exitCode", "exitcode", "pjwkyhsna");
    LackingIsClean(ExitCode, "exitCode", "pjwkyhsna");
  }

  lemma {:induction false} SummaryIsClean()
    ensures !IsSensitiveKey(Summary)
  {
    LowerLacks("summary", "summary", "pjwkghc");
    LackingIsClean(Summary, "summary", "pjwkghc");
  }

  lemma {:induction false} IdIsClean()
    ensures !IsSensitiveKey(Id)
  {
    LowerLacks("id", "id", "pjwkyhc");
    LackingIsClean(Id, "id", "pjwkyhc");
  }

  lemma {:induction false} EvidenceIsClean()
    ensures !IsSensitiveKey(Evidence)
  {
    LowerLacks("evidence", "evidence", "pjwkyhst");
    LackingIsClean(Evidence, "evidence", "pjwkyhst");
  }

  lemma {:induction false} AuthorityIsClean()
    ensures !IsSensitiveKey(Authority)
  {
    LowerLacks("author", "author", "pjwkgsc");
    LowerLacks("ity", "ity", "pjwkgsc");
    LacksBoth("author", "ity", "pjwkgsc");
    assert "author" + "ity" == "authority";
    LackingIsClean(Authority, "authority", "pjwkgsc");
  }

  lemma {:induction false} OutcomeIsClean()
    ensures !IsSensitiveKey(Outcome)
  {
    LowerLacks("outcome", "outcome", "pjwkyhsan");
    LackingIsClean(Outcome, "outcome", "pjwkyhsan");
  }

  lemma {:induction false} FactsIsClean()
    ensures !IsSensitiveKey(Facts)
  {
    LowerLacks("facts", "facts", "pjwkyhren");
    LackingIsClean(Facts, "facts", "pjwkyhren");
  }

  const VERIFICATION_OUTCOME := Named("verificationOutcome")

  lemma {:induction false} VerificationOutcomeLetters()
    ensures LacksAll("verificationOutcome", "pjwkyhsd")
  {
    LowerLacks("verific", "verific", "pjwkyhsd");
    LowerLacks("ationOutcome", "ationoutcome", "pjwkyhsd");
    LacksBoth("verific", "ationOutcome", "pjwkyhsd");
    assert "verific" + "ationOutcome" == "verificationOutcome";
  }

  lemma {:induction false} VerificationOutcomeIsPlain()
    ensures Plain("verificationOutcome")
  {
  }

  lemma {:induction false} VerificationOutcomeIsApart()
    ensures Apart("verificationOutcome", 'a', 'c')
  {
    var name := "verificationOutcome";
    forall i | 0 <= i < |name| - 1 && LowerCase(name[i]) == 'a'
      ensures LowerCase(name[i + 1]) != 'c'
    {
      assert i == 7;
    }
  }

  /** All letters of "account" occur in this name, but not in that order. */
  lemma {:induction false} VerificationOutcomeIsClean()
    ensures !IsSensitiveKey(VERIFICATION_OUTCOME)
  {
    VerificationOutcomeLetters();
    VerificationOutcomeIsPlain();
    VerificationOutcomeIsApart();
    forall t | t in SENSITIVE_EXACT || t in SENSITIVE_TOKENS
      ensures t == "account" || Hits("pjwkyhsd", t)
    {
      if t in SENSITIVE_EXACT { ExactNamesHit("pjwkyhsd", t); } else { MostTokensHit("pjwkyhsd", t, "account"); }
    }
    CleanBut(VERIFICATION_OUTCOME, "verificationOutcome", "pjwkyhsd", "account");
  }
}
