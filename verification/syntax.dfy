/** Address syntax and list membership (syntax.go).  The regular
    expression is an uninterpreted predicate; everything else is the chain
    of length, split and dot rules of IsValidSyntax. */
module Syntax {
  import opened Strings

  const MaxEmailLength := 254
  const MaxLocalLength := 64
  const MaxDomainLength := 253

  /** IsValidSyntax, rule by rule in the order the source applies them. */
  function IsValidSyntax(email: string, emailRegex: string -> bool): (ok: bool)
    ensures ok ==> 0 < |email| <= MaxEmailLength && emailRegex(email) && |Split(email, '@')| == 2
  {
    if |email| == 0 || |email| > MaxEmailLength then false
    else if !emailRegex(email) then false
    else
      var parts := Split(email, '@');
      if |parts| != 2 then false
      else
        var localPart, domain := parts[0], parts[1];
        if |localPart| > MaxLocalLength then false
        else if |domain| > MaxDomainLength then false
        else if Contains(email, "..") then false
        else if HasPrefix(localPart, ".") || HasSuffix(localPart, ".") then false
        else true
  }

  /** No two consecutive dots anywhere. */
  predicate NoDoubleDot(s: string) {
    forall i :: 0 <= i < |s| - 1 ==> !(s[i] == '.' && s[i + 1] == '.')
  }

  /** strings.Contains(s, "..") is exactly the presence of two adjacent dots. */
  lemma {:induction false} ContainsDoubleDot(s: string)
    ensures Contains(s, "..") <==> !NoDoubleDot(s)
    decreases |s|
  {
    if s != [] {
      ContainsDoubleDot(s[1..]);
      if HasPrefix(s, "..") {
        assert s[..2][0] == s[0] && s[..2][1] == s[1];
        assert s[0] == '.' && s[1] == '.';
      }
      if !NoDoubleDot(s[1..]) {
        var i :| 0 <= i < |s[1..]| - 1 && s[1..][i] == '.' && s[1..][i + 1] == '.';
        assert s[i + 1] == '.' && s[i + 2] == '.';
      }
      if !NoDoubleDot(s) && NoDoubleDot(s[1..]) {
        var i :| 0 <= i < |s| - 1 && s[i] == '.' && s[i + 1] == '.';
        if i == 0 {
          assert s[..2] == "..";
        }
      }
    }
  }

  /** A well-formed address stated by positions instead of by splitting:
      non-empty and at most 254 characters, accepted by the regular
      expression, exactly one '@' with at most 64 characters before it and
      at most 253 after it, no two adjacent dots, and no dot at either end
      of the local part. */
  predicate WellFormed(email: string, emailRegex: string -> bool) {
    && 0 < |email| <= MaxEmailLength
    && emailRegex(email)
    && '@' in email && Count(email, '@') == 1
    && var at := IndexOf(email, '@');
      && at <= MaxLocalLength
      && |email| - at - 1 <= MaxDomainLength
      && NoDoubleDot(email)
      && (at > 0 ==> email[0] != '.' && email[at - 1] != '.')
  }

  /** IsValidSyntax accepts exactly the well-formed addresses. */
  lemma IsValidSyntaxIff(email: string, emailRegex: string -> bool)
    ensures IsValidSyntax(email, emailRegex) <==> WellFormed(email, emailRegex)
  {
    ContainsDoubleDot(email);
    CountZero(email, '@');
    if Count(email, '@') == 1 {
      SplitOnce(email, '@');
      var at := IndexOf(email, '@');
      var localPart := email[..at];
      assert HasPrefix(localPart, ".") <==> at > 0 && email[0] == '.';
      assert HasSuffix(localPart, ".") <==> at > 0 && email[at - 1] == '.';
    }
  }

  /** Every accepted address has exactly two '@'-separated parts, within
      the length limits. */
  lemma ValidSyntaxParts(email: string, emailRegex: string -> bool)
    requires IsValidSyntax(email, emailRegex)
    ensures var parts := Split(email, '@');
      && |parts| == 2
      && 0 < |email| <= MaxEmailLength
      && |parts[0]| <= MaxLocalLength && |parts[1]| <= MaxDomainLength
      && parts[0] + "@" + parts[1] == email
  {
    JoinSplit(email, '@');
  }

  /** IsDisposable: whether the lower-cased domain is listed as true; a
      missing key reads as false. */
  function IsDisposable(domain: string, disposableDomains: map<string, bool>): (r: bool)
    ensures r <==> ToLower(domain) in disposableDomains && disposableDomains[ToLower(domain)]
  {
    var key := ToLower(domain);
    key in disposableDomains && disposableDomains[key]
  }

  /** IsRoleBased: whether the lower-cased local part is listed as true; a
      missing key reads as false. */
  function IsRoleBased(localPart: string, roleBasedAccounts: map<string, bool>): (r: bool)
    ensures r <==> ToLower(localPart) in roleBasedAccounts && roleBasedAccounts[ToLower(localPart)]
  {
    var key := ToLower(localPart);
    key in roleBasedAccounts && roleBasedAccounts[key]
  }

  /** The casing of the domain never matters. */
  lemma IsDisposableIgnoresCase(domain: string, disposableDomains: map<string, bool>)
    ensures IsDisposable(ToLower(domain), disposableDomains) == IsDisposable(domain, disposableDomains)
  {
    ToLowerIdempotent(domain);
  }

  /** The casing of the local part never matters. */
  lemma IsRoleBasedIgnoresCase(localPart: string, roleBasedAccounts: map<string, bool>)
    ensures IsRoleBased(ToLower(localPart), roleBasedAccounts) == IsRoleBased(localPart, roleBasedAccounts)
  {
    ToLowerIdempotent(localPart);
  }
}
