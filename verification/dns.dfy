/** Domain checks over DNS (dns.go): the MX lookup with its records
    ordered by preference, the address lookup, and the domain verdict that
    falls back from the first to the second.  Lookups are answered by a
    `Resolver`. */
module Dns {
  import opened Types
  import opened Strings
  import opened Net

  const DomainNotExist := "domain does not exist"
  const LookupTimeout := "DNS lookup timeout"

  /** The domain as it is looked up: surrounding white space removed and
      lower-cased. */
  function Normalize(domain: string): string {
    ToLower(TrimSpace(domain))
  }

  /** The error a failed or empty lookup of `kind` records ("MX" or "A")
      turns into; None when the lookup found at least one record.  A
      resolver error that is both "not found" and "timeout" reads as not
      found. */
  function LookupError<T>(l: Lookup<T>, kind: string): (e: Option<string>)
    ensures e.None? <==> l.Answer? && |l.records| > 0
    ensures l.DnsError? && l.isNotFound ==> e == Some(DomainNotExist)
    ensures l.DnsError? && !l.isNotFound && l.isTimeout ==> e == Some(LookupTimeout)
    ensures (l.DnsError? && !l.isNotFound && !l.isTimeout) || l.OtherError? ==>
      e == Some("failed to lookup " + kind + " records")
    ensures l.Answer? && |l.records| == 0 ==> e == Some("no " + kind + " records found for the domain")
  {
    match l
    case DnsError(_, notFound, timeout) =>
      if notFound then Some(DomainNotExist)
      else if timeout then Some(LookupTimeout)
      else Some("failed to lookup " + kind + " records")
    case OtherError(_) => Some("failed to lookup " + kind + " records")
    case Answer(records) =>
      if |records| == 0 then Some("no " + kind + " records found for the domain") else None
  }

  /** The four kinds of failure give four different messages, so a caller
      can tell which one happened. */
  lemma LookupErrorsDistinct<T>(kind: string, a: Lookup<T>, b: Lookup<T>)
    requires kind == "MX" || kind == "A"
    requires LookupError(a, kind).Some? && LookupError(b, kind) == LookupError(a, kind)
    ensures a.DnsError? && a.isNotFound <==> b.DnsError? && b.isNotFound
    ensures (a.DnsError? && !a.isNotFound && a.isTimeout) <==> (b.DnsError? && !b.isNotFound && b.isTimeout)
    ensures a.Answer? <==> b.Answer?
  {
    var failed := "failed to lookup " + kind + " records";
    var empty := "no " + kind + " records found for the domain";
    assert failed[0] == 'f' && empty[0] == 'n' && DomainNotExist[0] == 'd' && LookupTimeout[0] == 'D';
  }

  predicate SortedByPref(s: seq<MX>) {
    forall i, j :: 0 <= i < j < |s| ==> s[i].pref <= s[j].pref
  }

  /** sort.Slice on the preferences: the records end up in non-decreasing
      order of preference.  Records with equal preference may end up in any
      order, so the contract says nothing about them. */
  method SortByPref(a: array<MX>)
    modifies a
    ensures SortedByPref(a[..])
    ensures multiset(a[..]) == multiset(old(a[..]))
  {
    var i := 0;
    while i < a.Length
      invariant 0 <= i <= a.Length
      invariant SortedByPref(a[..i])
      invariant multiset(a[..]) == multiset(old(a[..]))
    {
      InsertByPref(a, i);
      i := i + 1;
    }
    assert a[..a.Length] == a[..];
  }

  /** While a[i] moves down: a[..i + 1] is in order except around the
      moving element at j, which is no larger than anything after it. */
  predicate SortedAround(s: seq<MX>, i: nat, j: nat)
    requires j <= i < |s|
  {
    && (forall k, l :: 0 <= k < l <= i && k != j && l != j ==> s[k].pref <= s[l].pref)
    && (forall l :: j < l <= i ==> s[j].pref <= s[l].pref)
  }

  /** Exchanging the moving element with a larger predecessor moves the
      gap down by one. */
  lemma SwapKeepsSortedAround(s: seq<MX>, i: nat, j: nat)
    requires 0 < j <= i < |s| && SortedAround(s, i, j) && s[j - 1].pref > s[j].pref
    ensures SortedAround(s[j - 1 := s[j]][j := s[j - 1]], i, j - 1)
  {
  }

  /** Once the predecessor is no larger, or there is none, the prefix is
      in order. */
  lemma SortedAroundDone(s: seq<MX>, i: nat, j: nat)
    requires j <= i < |s| && SortedAround(s, i, j)
    requires j == 0 || s[j - 1].pref <= s[j].pref
    ensures SortedByPref(s[..i + 1])
  {
  }

  /** One step of the sort: moves a[i] down into the sorted a[..i]. */
  method InsertByPref(a: array<MX>, i: nat)
    requires i < a.Length && SortedByPref(a[..i])
    modifies a
    ensures SortedByPref(a[..i + 1])
    ensures multiset(a[..]) == multiset(old(a[..]))
  {
    var j := i;
    while j > 0 && a[j - 1].pref > a[j].pref
      invariant 0 <= j <= i
      invariant SortedAround(a[..], i, j)
      invariant multiset(a[..]) == multiset(old(a[..]))
    {
      SwapKeepsSortedAround(a[..], i, j);
      SwapDown(a, j);
      j := j - 1;
    }
    SortedAroundDone(a[..], i, j);
  }

  /** Exchanges a[j - 1] and a[j]. */
  method SwapDown(a: array<MX>, j: nat)
    requires 0 < j < a.Length
    modifies a
    ensures a[..] == old(a[..])[j - 1 := old(a[j])][j := old(a[j - 1])]
    ensures multiset(a[..]) == multiset(old(a[..]))
  {
    a[j - 1], a[j] := a[j], a[j - 1];
  }

  /** CheckMX: the MX records of the normalised domain, ordered by
      preference, or the classified lookup error. */
  method CheckMX(domain: string, dns: Resolver) returns (r: Result<seq<MX>>)
    ensures var lookup := dns.lookupMX(Normalize(domain));
      && (r.Failure? <==> LookupError(lookup, "MX").Some?)
      && (r.Failure? ==> r.error == LookupError(lookup, "MX").value)
      && (r.Success? ==> SortedByPref(r.value) && multiset(r.value) == multiset(lookup.records))
  {
    var lookup := dns.lookupMX(Normalize(domain));
    var error := LookupError(lookup, "MX");
    if error.Some? {
      return Failure(error.value);
    }
    var records := lookup.records;
    var a := new MX[|records|](i requires 0 <= i < |records| => records[i]);
    assert a[..] == records;
    SortByPref(a);
    r := Success(a[..]);
  }

  /** CheckA: the addresses of the normalised domain, unchanged, or the
      classified lookup error. */
  function CheckA(domain: string, dns: Resolver): (r: Result<seq<string>>)
    ensures var lookup := dns.lookupIP(Normalize(domain));
      && (r.Failure? <==> LookupError(lookup, "A").Some?)
      && (r.Failure? ==> r.error == LookupError(lookup, "A").value)
      && (r.Success? ==> r.value == lookup.records && |r.value| > 0)
  {
    match LookupError(dns.lookupIP(Normalize(domain)), "A")
    case Some(error) => Failure(error)
    case None => Success(dns.lookupIP(Normalize(domain)).records)
  }

  /** ValidateDomain as a function of the lookups: no error when the MX
      lookup finds records, else no error when the address lookup finds
      some, else the MX error. */
  function DomainError(domain: string, dns: Resolver): (e: Option<string>)
    ensures e.None? || e == LookupError(dns.lookupMX(Normalize(domain)), "MX")
  {
    var mx := LookupError(dns.lookupMX(Normalize(domain)), "MX");
    if mx.None? then None
    else if CheckA(domain, dns).Success? then None
    else mx
  }

  /** ValidateDomain. */
  method ValidateDomain(domain: string, dns: Resolver) returns (err: Option<string>)
    ensures err == DomainError(domain, dns)
  {
    var mx := CheckMX(domain, dns);
    if mx.Success? {
      return None;
    }
    var a := CheckA(domain, dns);
    if a.Failure? {
      return Some(mx.error);
    }
    return None;
  }

  /** A domain is accepted exactly when one of the two lookups finds
      records; a rejection always carries the MX error. */
  lemma DomainErrorCharacterised(domain: string, dns: Resolver)
    ensures var mx := dns.lookupMX(Normalize(domain));
      var ip := dns.lookupIP(Normalize(domain));
      && (DomainError(domain, dns).None? <==> (mx.Answer? && |mx.records| > 0) || (ip.Answer? && |ip.records| > 0))
      && (DomainError(domain, dns).Some? ==> DomainError(domain, dns) == LookupError(mx, "MX"))
  {
  }

  /** The address lookup is only consulted after the MX lookup fails:
      when MX records exist, what the address lookup would answer does not
      matter. */
  lemma DomainErrorIgnoresAWhenMXFound(domain: string, dns: Resolver, other: string -> Lookup<string>)
    requires LookupError(dns.lookupMX(Normalize(domain)), "MX").None?
    ensures DomainError(domain, dns) == DomainError(domain, dns.(lookupIP := other)) == None
  {
  }

  /** Normalising is idempotent: a name that was already trimmed and
      lower-cased is looked up as it is. */
  lemma NormalizeIdempotent(domain: string)
    ensures Normalize(Normalize(domain)) == Normalize(domain)
  {
    var t := TrimSpace(domain);
    var i, j := TrimSpaceSpec(domain);
    var lower := ToLower(t);
    // Lower-casing turns no character into white space and back, so the
    // trimmed text stays trimmed.
    if lower != [] {
      assert IsSpace(lower[0]) == IsSpace(t[0]);
      assert IsSpace(lower[|lower| - 1]) == IsSpace(t[|t| - 1]);
    }
    TrimSpaceOfTrimmed(lower);
    ToLowerIdempotent(t);
  }
}
