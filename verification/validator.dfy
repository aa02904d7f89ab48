/** The basic validator (validator.go): an ordered chain of checks on an
    address (format, local-part length, domain length) followed by the DNS
    checks on its domain (resolves, has MX records, no suspicious pattern,
    not a known disposable domain).  The first check that fails decides the
    reason.  The regular expression is an uninterpreted predicate and the
    lookups are answered by a `Resolver`. */
module Validation {
  import opened Types
  import opened Strings
  import opened Net

  const MaxLocalLength := 64
  const MaxDomainLength := 253

  const ReasonFormat := "invalid email format"
  const ReasonLocalLength := "invalid local part length"
  const ReasonDomainLength := "invalid domain length"
  const ReasonValid := "email appears valid"

  const ReasonUnresolved := "domain does not resolve"
  const ReasonNoMX := "no MX records found"
  const ReasonSuspicious := "domain contains suspicious pattern: "
  const ReasonDisposable := "disposable email domain detected"
  const ReasonDomainPassed := "domain validation passed"

  /** Substrings that make a domain suspicious, in the order they are tried. */
  const SuspiciousPatterns: seq<string> := [
    "temp", "temporary", "disposable", "throwaway", "fake",
    "test", "example", "invalid", "localhost"]

  /** Domains rejected as disposable when no suspicious pattern matched. */
  const DisposableDomains: seq<string> := [
    "10minutemail.com", "guerrillamail.com", "mailinator.com",
    "tempmail.org", "throwaway.email", "yopmail.com",
    "temp-mail.org", "getairmail.com", "sharklasers.com"]

  /** The outcome of validateDomain. */
  datatype DomainCheck = DomainCheck(valid: bool, reason: string, metadata: map<string, Meta>)

  // ---------------------------------------------------------------------
  // Specification

  /** One entry of the "mx_records" metadata: "%s (priority: %d)". */
  function MXLine(mx: MX): string {
    mx.host + " (priority: " + NatToString(mx.pref) + ")"
  }

  /** The "mx_records" metadata for a list of records, built front to back. */
  function MXLines(records: seq<MX>): seq<string> {
    if records == [] then []
    else MXLines(records[..|records| - 1]) + [MXLine(records[|records| - 1])]
  }

  /** The "mx_records" entry i describes record i. */
  lemma {:induction false} MXLinesSpec(records: seq<MX>)
    ensures |MXLines(records)| == |records|
    ensures forall i :: 0 <= i < |records| ==> MXLines(records)[i] == MXLine(records[i])
  {
    if records != [] {
      MXLinesSpec(records[..|records| - 1]);
    }
  }

  /** The first pattern, in list order, that occurs in `lower`. */
  function FirstPattern(lower: string, patterns: seq<string>): Option<string> {
    if patterns == [] then None
    else if Contains(lower, patterns[0]) then Some(patterns[0])
    else FirstPattern(lower, patterns[1..])
  }

  /** FirstPattern finds nothing exactly when no pattern occurs, and
      otherwise the pattern it finds occurs and none before it does. */
  lemma {:induction false} FirstPatternSpec(lower: string, patterns: seq<string>)
    ensures FirstPattern(lower, patterns).None? <==>
      forall i :: 0 <= i < |patterns| ==> !Contains(lower, patterns[i])
    ensures FirstPattern(lower, patterns).Some? ==>
      exists i :: 0 <= i < |patterns| && patterns[i] == FirstPattern(lower, patterns).value
        && Contains(lower, patterns[i])
        && forall j :: 0 <= j < i ==> !Contains(lower, patterns[j])
  {
    if patterns != [] && !Contains(lower, patterns[0]) {
      FirstPatternSpec(lower, patterns[1..]);
      if FirstPattern(lower, patterns[1..]).Some? {
        var i :| 0 <= i < |patterns[1..]| && patterns[1..][i] == FirstPattern(lower, patterns[1..]).value
          && Contains(lower, patterns[1..][i])
          && forall j :: 0 <= j < i ==> !Contains(lower, patterns[1..][j]);
        assert patterns[i + 1] == FirstPattern(lower, patterns).value;
        forall j | 0 < j < i + 1
          ensures !Contains(lower, patterns[j])
        {
          assert patterns[j] == patterns[1..][j - 1];
        }
      }
    } else if patterns != [] {
      assert patterns[0] == FirstPattern(lower, patterns).value;
    }
  }

  /** Why the pattern and list checks refuse a domain. */
  datatype Refusal = SuspiciousPattern(pattern: string) | DisposableDomain

  function RefusalReason(r: Refusal): string {
    match r
    case SuspiciousPattern(p) => ReasonSuspicious + p
    case DisposableDomain => ReasonDisposable
  }

  /** The pattern and list checks on the lower-cased domain: why it is
      refused, or None when it passes both. */
  function Screen(lower: string): Option<Refusal> {
    match FirstPattern(lower, SuspiciousPatterns)
    case Some(p) => Some(SuspiciousPattern(p))
    case None => if lower in DisposableDomains then Some(DisposableDomain) else None
  }

  /** validateDomain as a function of the lookups. */
  function DomainVerdict(domain: string, dns: Resolver): (d: DomainCheck)
    ensures !dns.lookupHost(domain).Answer? ==> d == DomainCheck(false, ReasonUnresolved, map[])
    ensures d.valid ==> d.reason == ReasonDomainPassed
  {
    if !dns.lookupHost(domain).Answer? then DomainCheck(false, ReasonUnresolved, map[])
    else
      var resolved := map["domain_resolves" := Flag(true)];
      var mx := dns.lookupMX(domain);
      if !mx.Answer? || |mx.records| == 0 then DomainCheck(false, ReasonNoMX, resolved)
      else
        var metadata := resolved["mx_records" := Texts(MXLines(mx.records))]["mx_count" := Number(|mx.records|)];
        match Screen(ToLower(domain))
        case Some(refusal) => DomainCheck(false, RefusalReason(refusal), metadata)
        case None => DomainCheck(true, ReasonDomainPassed, metadata)
  }

  /** validateDomain over a resolver, as the step ValidateEmail takes. */
  function DomainStep(dns: Resolver): string -> DomainCheck {
    domain => DomainVerdict(domain, dns)
  }

  /** ValidateEmail as a function of the address, the pattern and the
      domain step. */
  function EmailVerdict(email: string, emailRegex: string -> bool, domainCheck: string -> DomainCheck): (r: ValidationResult)
    ensures r.email == email && (r.status == StatusValid || r.status == StatusInvalid)
    ensures r.status == StatusValid ==> r.reason == ReasonValid
  {
    if !emailRegex(email) then ValidationResult(email, StatusInvalid, ReasonFormat, map[])
    else
      var parts := Split(email, '@');
      if |parts| != 2 then ValidationResult(email, StatusInvalid, ReasonFormat, map[])
      else if |parts[0]| == 0 || |parts[0]| > MaxLocalLength then
        ValidationResult(email, StatusInvalid, ReasonLocalLength, map[])
      else if |parts[1]| == 0 || |parts[1]| > MaxDomainLength then
        ValidationResult(email, StatusInvalid, ReasonDomainLength, map[])
      else
        var details := domainCheck(parts[1]);
        if !details.valid then ValidationResult(email, StatusInvalid, details.reason, details.metadata)
        else ValidationResult(email, StatusValid, ReasonValid, details.metadata)
  }

  // ---------------------------------------------------------------------
  // Properties of the specification

  /** A lower-cased domain passes the pattern and list checks exactly when
      it contains none of the patterns and is none of the listed domains. */
  lemma ScreenPassesIff(lower: string)
    ensures Screen(lower).None? <==>
      && (forall i :: 0 <= i < |SuspiciousPatterns| ==> !Contains(lower, SuspiciousPatterns[i]))
      && lower !in DisposableDomains
  {
    FirstPatternSpec(lower, SuspiciousPatterns);
  }

  /** A suspicious-pattern refusal names the first pattern in list order
      that occurs in the domain. */
  lemma SuspiciousNamesFirstMatch(lower: string, p: string)
    requires Screen(lower) == Some(SuspiciousPattern(p))
    ensures exists i :: (0 <= i < |SuspiciousPatterns| && SuspiciousPatterns[i] == p
      && Contains(lower, p)
      && forall j :: 0 <= j < i ==> !Contains(lower, SuspiciousPatterns[j]))
  {
    FirstPatternSpec(lower, SuspiciousPatterns);
  }

  /** "temporary" is never reported: every domain containing it also
      contains "temp", which is tried first. */
  lemma TemporaryNeverReported(lower: string)
    ensures Screen(lower) != Some(SuspiciousPattern("temporary"))
  {
    if Screen(lower) == Some(SuspiciousPattern("temporary")) {
      SuspiciousNamesFirstMatch(lower, "temporary");
      var i :| 0 <= i < |SuspiciousPatterns| && SuspiciousPatterns[i] == "temporary"
        && Contains(lower, "temporary")
        && forall j :: 0 <= j < i ==> !Contains(lower, SuspiciousPatterns[j]);
      assert HasPrefix("temporary", "temp");
      ContainsPrefixOf(lower, "temporary", "temp");
      assert false;
    }
  }

  /** Three of the listed disposable domains contain a suspicious pattern,
      so only the other six are ever reported as disposable. */
  lemma DisposableReportedOnlyForSix(lower: string)
    requires Screen(lower) == Some(DisposableDomain)
    ensures lower in ["10minutemail.com", "guerrillamail.com", "mailinator.com",
                      "yopmail.com", "getairmail.com", "sharklasers.com"]
  {
    assert FirstPattern(lower, SuspiciousPatterns).None?;
    if lower in ["tempmail.org", "throwaway.email", "temp-mail.org"] {
      ShadowedDisposable(lower);
    }
  }

  /** tempmail.org and temp-mail.org contain "temp", throwaway.email
      contains "throwaway". */
  lemma ShadowedDisposable(lower: string)
    requires lower in ["tempmail.org", "throwaway.email", "temp-mail.org"]
    ensures FirstPattern(lower, SuspiciousPatterns).Some?
  {
    var i := if lower == "throwaway.email" then 3 else 0;
    var pattern := if lower == "throwaway.email" then "throwaway" else "temp";
    assert SuspiciousPatterns[i] == pattern;
    assert lower[0..|pattern|] == pattern;
    ContainsAt(lower, pattern, 0);
    MatchedPatternFound(lower, i);
  }

  /** A domain containing one of the patterns is refused by one of them. */
  lemma MatchedPatternFound(lower: string, i: nat)
    requires i < |SuspiciousPatterns| && Contains(lower, SuspiciousPatterns[i])
    ensures FirstPattern(lower, SuspiciousPatterns).Some?
  {
    FirstPatternSpec(lower, SuspiciousPatterns);
  }

  /** The first failing check decides: an unresolved domain is refused as
      such without consulting MX, a missing or failed MX lookup comes next,
      and only then the pattern and list checks. */
  lemma DomainVerdictReason(domain: string, dns: Resolver)
    ensures var d := DomainVerdict(domain, dns);
      var mx := dns.lookupMX(domain);
      && (!dns.lookupHost(domain).Answer? ==> d == DomainCheck(false, ReasonUnresolved, map[]))
      && (dns.lookupHost(domain).Answer? && !(mx.Answer? && |mx.records| > 0) ==>
            !d.valid && d.reason == ReasonNoMX)
      && (dns.lookupHost(domain).Answer? && mx.Answer? && |mx.records| > 0 ==>
            (d.valid <==> Screen(ToLower(domain)).None?)
            && (!d.valid ==> d.reason == RefusalReason(Screen(ToLower(domain)).value))
            && (d.valid ==> d.reason == ReasonDomainPassed))
  {
  }

  /** A domain passes exactly when it resolves, has at least one MX
      record, contains none of the suspicious patterns (ignoring case) and
      is not one of the disposable domains (ignoring case). */
  lemma DomainVerdictValidIff(domain: string, dns: Resolver)
    ensures var mx := dns.lookupMX(domain);
      DomainVerdict(domain, dns).valid <==>
        && dns.lookupHost(domain).Answer?
        && mx.Answer? && |mx.records| > 0
        && (forall i :: 0 <= i < |SuspiciousPatterns| ==> !Contains(ToLower(domain), SuspiciousPatterns[i]))
        && ToLower(domain) !in DisposableDomains
  {
    ScreenPassesIff(ToLower(domain));
  }

  /** A domain that does not resolve is refused whatever MX would say. */
  lemma UnresolvedIgnoresMX(domain: string, dns: Resolver, otherMX: string -> Lookup<MX>)
    requires !dns.lookupHost(domain).Answer?
    ensures DomainVerdict(domain, dns) == DomainVerdict(domain, dns.(lookupMX := otherMX))
  {
  }

  /** The metadata of validateDomain on each outcome: empty when the domain
      does not resolve, otherwise "domain_resolves", and once MX records
      are found also their description and count. */
  lemma DomainVerdictMetadata(domain: string, dns: Resolver)
    ensures var d := DomainVerdict(domain, dns);
      var mx := dns.lookupMX(domain);
      && (!dns.lookupHost(domain).Answer? <==> d.metadata == map[])
      && (dns.lookupHost(domain).Answer? ==> "domain_resolves" in d.metadata && d.metadata["domain_resolves"] == Flag(true))
      && (dns.lookupHost(domain).Answer? && mx.Answer? && |mx.records| > 0 ==>
            && d.metadata.Keys == {"domain_resolves", "mx_records", "mx_count"}
            && d.metadata["mx_count"] == Number(|mx.records|)
            && d.metadata["mx_records"].Texts?
            && |d.metadata["mx_records"].texts| == |mx.records|
            && forall i :: 0 <= i < |mx.records| ==> d.metadata["mx_records"].texts[i] == MXLine(mx.records[i]))
  {
    var d := DomainVerdict(domain, dns);
    var mx := dns.lookupMX(domain);
    if dns.lookupHost(domain).Answer? {
      assert "domain_resolves" in d.metadata;
      if mx.Answer? && |mx.records| > 0 {
        MXLinesSpec(mx.records);
      }
    }
  }

  /** The address passes exactly when it matches the pattern, has exactly
      one '@', a local part of 1 to 64 characters, a domain of 1 to 253
      characters, and that domain passes the domain step. */
  lemma EmailVerdictValidIff(email: string, emailRegex: string -> bool, domainCheck: string -> DomainCheck)
    ensures var parts := Split(email, '@');
      EmailVerdict(email, emailRegex, domainCheck).status == StatusValid <==>
        && emailRegex(email)
        && Count(email, '@') == 1
        && 0 < |parts[0]| <= MaxLocalLength
        && 0 < |parts[1]| <= MaxDomainLength
        && domainCheck(parts[1]).valid
    ensures EmailVerdict(email, emailRegex, domainCheck).status in {StatusValid, StatusInvalid}
  {
  }

  /** With exactly one '@' the parts are the text before and after it. */
  lemma EmailParts(email: string)
    requires Count(email, '@') == 1
    ensures '@' in email
    ensures Split(email, '@') == [email[..IndexOf(email, '@')], email[IndexOf(email, '@') + 1..]]
  {
    SplitOnce(email, '@');
  }

  /** The format and length checks come before any lookup: when one of
      them fails, the result does not depend on the domain step and
      carries no metadata. */
  lemma ShapeFailureNeedsNoLookup(email: string, emailRegex: string -> bool, domainCheck: string -> DomainCheck,
                                  other: string -> DomainCheck)
    requires var parts := Split(email, '@');
      !emailRegex(email) || |parts| != 2
      || !(0 < |parts[0]| <= MaxLocalLength) || !(0 < |parts[1]| <= MaxDomainLength)
    ensures EmailVerdict(email, emailRegex, other) == EmailVerdict(email, emailRegex, domainCheck)
    ensures EmailVerdict(email, emailRegex, domainCheck).status == StatusInvalid
    ensures EmailVerdict(email, emailRegex, domainCheck).reason in {ReasonFormat, ReasonLocalLength, ReasonDomainLength}
    ensures EmailVerdict(email, emailRegex, domainCheck).metadata == map[]
  {
  }

  /** The local-part length, empty or over 64, is checked before the
      domain length. */
  lemma LocalLengthBeforeDomainLength(email: string, emailRegex: string -> bool, domainCheck: string -> DomainCheck)
    requires emailRegex(email) && |Split(email, '@')| == 2
    requires !(0 < |Split(email, '@')[0]| <= MaxLocalLength)
    ensures EmailVerdict(email, emailRegex, domainCheck).reason == ReasonLocalLength
  {
  }

  /** Once the address is well shaped, the domain step decides: its reason
      on refusal, and its metadata whatever the outcome. */
  lemma DomainStepDecides(email: string, emailRegex: string -> bool, domainCheck: string -> DomainCheck)
    requires var parts := Split(email, '@');
      emailRegex(email) && |parts| == 2
      && 0 < |parts[0]| <= MaxLocalLength && 0 < |parts[1]| <= MaxDomainLength
    ensures var r := EmailVerdict(email, emailRegex, domainCheck);
      var details := domainCheck(Split(email, '@')[1]);
      && r.metadata == details.metadata
      && r.email == email
      && (r.status == StatusValid <==> details.valid)
      && (!details.valid ==> r.reason == details.reason)
      && (details.valid ==> r.reason == ReasonValid)
  {
  }

  // ---------------------------------------------------------------------
  // The validator

  /** Validator: holds the address pattern. */
  class Validator {
    const emailRegex: string -> bool

    constructor(emailRegex: string -> bool)
      ensures this.emailRegex == emailRegex
    {
      this.emailRegex := emailRegex;
    }

    /** ValidateEmail: the result is built step by step, and the domain
        metadata is copied entry by entry. */
    method ValidateEmail(email: string, dns: Resolver) returns (result: ValidationResult)
      ensures result == EmailVerdict(email, emailRegex, DomainStep(dns))
    {
      result := ValidationResult(email, "", "", map[]);
      if !emailRegex(email) {
        result := result.(status := StatusInvalid, reason := ReasonFormat);
        return;
      }
      var parts := Split(email, '@');
      if |parts| != 2 {
        result := result.(status := StatusInvalid, reason := ReasonFormat);
        return;
      }
      var domain := parts[1];
      var localPart := parts[0];
      if |localPart| == 0 || |localPart| > MaxLocalLength {
        result := result.(status := StatusInvalid, reason := ReasonLocalLength);
        return;
      }
      if |domain| == 0 || |domain| > MaxDomainLength {
        result := result.(status := StatusInvalid, reason := ReasonDomainLength);
        return;
      }
      var details := ValidateDomain(domain, dns);
      var metadata := CopyMetadata(result.metadata, details.metadata);
      result := result.(metadata := metadata);
      if !details.valid {
        result := result.(status := StatusInvalid, reason := details.reason);
        return;
      }
      result := result.(status := StatusValid, reason := ReasonValid);
    }

    /** validateDomain: stops at the first failing check. */
    method ValidateDomain(domain: string, dns: Resolver) returns (d: DomainCheck)
      ensures d == DomainVerdict(domain, dns)
    {
      var metadata: map<string, Meta> := map[];
      var host := dns.lookupHost(domain);
      if !host.Answer? {
        return DomainCheck(false, ReasonUnresolved, metadata);
      }
      metadata := metadata["domain_resolves" := Flag(true)];
      var mx := dns.lookupMX(domain);
      if !mx.Answer? {
        return DomainCheck(false, ReasonNoMX, metadata);
      }
      var records := mx.records;
      if |records| == 0 {
        return DomainCheck(false, ReasonNoMX, metadata);
      }
      var mxHosts: seq<string> := [];
      var i := 0;
      while i < |records|
        invariant 0 <= i <= |records|
        invariant mxHosts == MXLines(records[..i])
      {
        assert records[..i + 1][..i] == records[..i];
        mxHosts := mxHosts + [MXLine(records[i])];
        i := i + 1;
      }
      assert records[..|records|] == records;
      metadata := metadata["mx_records" := Texts(mxHosts)]["mx_count" := Number(|records|)];

      var k := 0;
      while k < |SuspiciousPatterns|
        invariant 0 <= k <= |SuspiciousPatterns|
        invariant FirstPattern(ToLower(domain), SuspiciousPatterns)
          == FirstPattern(ToLower(domain), SuspiciousPatterns[k..])
      {
        var pattern := SuspiciousPatterns[k];
        if Contains(ToLower(domain), pattern) {
          return DomainCheck(false, ReasonSuspicious + pattern, metadata);
        }
        assert SuspiciousPatterns[k..][1..] == SuspiciousPatterns[k + 1..];
        k := k + 1;
      }

      var m := 0;
      while m < |DisposableDomains|
        invariant 0 <= m <= |DisposableDomains|
        invariant ToLower(domain) !in DisposableDomains[..m]
      {
        if ToLower(domain) == DisposableDomains[m] {
          return DomainCheck(false, ReasonDisposable, metadata);
        }
        assert DisposableDomains[..m + 1] == DisposableDomains[..m] + [DisposableDomains[m]];
        m := m + 1;
      }
      assert DisposableDomains[..m] == DisposableDomains;
      return DomainCheck(true, ReasonDomainPassed, metadata);
    }

    /** ValidateBatch: one result per address, in order. */
    method ValidateBatch(emails: seq<string>, dns: Resolver) returns (results: seq<ValidationResult>)
      ensures |results| == |emails|
      ensures forall i :: 0 <= i < |emails| ==> results[i] == EmailVerdict(emails[i], emailRegex, DomainStep(dns))
    {
      results := [];
      var i := 0;
      while i < |emails|
        invariant 0 <= i <= |emails|
        invariant |results| == i
        invariant forall k :: 0 <= k < i ==> results[k] == EmailVerdict(emails[k], emailRegex, DomainStep(dns))
      {
        var r := ValidateEmail(emails[i], dns);
        results := results + [r];
        i := i + 1;
      }
    }
  }

  /** Copies every entry of `source` into `target`, one key at a time;
      entries of `source` win. */
  method CopyMetadata(target: map<string, Meta>, source: map<string, Meta>) returns (r: map<string, Meta>)
    ensures r == target + source
  {
    r := target;
    var todo := source.Keys;
    while todo != {}
      invariant todo <= source.Keys
      invariant r.Keys == target.Keys + (source.Keys - todo)
      invariant forall k :: k in r ==> r[k] == if k in source && k !in todo then source[k] else target[k]
      decreases todo
    {
      var k :| k in todo;
      r := r[k := source[k]];
      todo := todo - {k};
    }
  }
}
