/** The validator with mail-server reputation (enhanced_validator.go): the
    basic verdict, downgraded to "suspicious" when the domain has no mail
    server addresses or one of them has a poor reputation.  Reputations come
    from a per-address cache whose entries are served for `cacheExpiry`
    nanoseconds and swept once older than that.  The reputation service is
    a function of the address and the time of the call; the clock is the
    `now` parameter. */
module EnhancedValidation {
  import opened Types
  import opened Strings
  import opened Net
  import opened Validation
  import opened MailServers

  /** time.Hour * 24, in nanoseconds. */
  const CacheExpiry := 24 * 60 * 60 * 1_000_000_000

  const ReasonNoMailServers := "no mail servers found for domain"
  const ReasonPoorReputation := "mail server IP has poor reputation"

  /** What AbuseIPDBClient.CheckIP returns: a record, or a Go error. */
  datatype IPCheck = Checked(record: IPReputation) | CallFailed(message: string)

  /** The record checkIPReputationWithCache returns and the cache after it. */
  datatype CacheStep = CacheStep(record: IPReputation, cache: map<string, IPReputation>)

  /** Records of a run of checks, in order, and the cache after them. */
  datatype CheckRun = CheckRun(records: seq<IPReputation>, cache: map<string, IPReputation>)

  /** A validation result and the cache after it. */
  datatype Outcome = Outcome(result: ValidationResult, cache: map<string, IPReputation>)

  // ---------------------------------------------------------------------
  // The cache

  /** A cached entry is served while younger than the expiry. */
  predicate Served(cache: map<string, IPReputation>, ip: string, now: int, expiry: int) {
    ip in cache && now - cache[ip].checkedAt < expiry
  }

  /** An entry is swept once older than the expiry. */
  predicate Expired(entry: IPReputation, now: int, expiry: int) {
    now - entry.checkedAt > expiry
  }

  /** The record made up when the reputation service fails. */
  function ErrorRecord(ip: string, message: string, now: int): IPReputation {
    IPReputation(ip, false, 0, 0, "", "", "", 0, now, "API error: " + message)
  }

  /** checkIPReputationWithCache as a function of the cache. */
  function CachedCheck(cache: map<string, IPReputation>, checkIP: (string, int) -> IPCheck,
                       ip: string, now: int, expiry: int): (step: CacheStep)
    ensures step.cache == cache || step.cache == cache[ip := step.record]
  {
    if Served(cache, ip, now, expiry) then CacheStep(cache[ip], cache)
    else match checkIP(ip, now)
      case Checked(record) => CacheStep(record, cache[ip := record])
      case CallFailed(message) => CacheStep(ErrorRecord(ip, message, now), cache)
  }

  /** ClearExpiredCache as a function of the cache. */
  function Sweep(cache: map<string, IPReputation>, now: int, expiry: int): (swept: map<string, IPReputation>)
    ensures swept.Keys <= cache.Keys
  {
    map ip | ip in cache && !Expired(cache[ip], now, expiry) :: cache[ip]
  }

  /** A hit returns the cached record, leaves the cache as it is, and does
      not depend on the reputation service. */
  lemma CacheHit(cache: map<string, IPReputation>, checkIP: (string, int) -> IPCheck,
                 other: (string, int) -> IPCheck, ip: string, now: int, expiry: int)
    requires Served(cache, ip, now, expiry)
    ensures CachedCheck(cache, checkIP, ip, now, expiry) == CacheStep(cache[ip], cache)
    ensures CachedCheck(cache, checkIP, ip, now, expiry) == CachedCheck(cache, other, ip, now, expiry)
  {
  }

  /** A miss asks the service once.  A record it returns is stored under
      that address and no other entry changes; an error gives a record
      carrying the address, the error text and the time, and the cache is
      left as it was. */
  lemma CacheMiss(cache: map<string, IPReputation>, checkIP: (string, int) -> IPCheck,
                  ip: string, now: int, expiry: int)
    requires !Served(cache, ip, now, expiry)
    ensures var step := CachedCheck(cache, checkIP, ip, now, expiry);
      && (checkIP(ip, now).Checked? ==>
            && step.record == checkIP(ip, now).record
            && step.cache.Keys == cache.Keys + {ip}
            && step.cache[ip] == checkIP(ip, now).record
            && forall k :: k in cache && k != ip ==> step.cache[k] == cache[k])
      && (checkIP(ip, now).CallFailed? ==>
            && step.cache == cache
            && step.record.ipAddress == ip
            && step.record.error == "API error: " + checkIP(ip, now).message
            && step.record.checkedAt == now)
  {
  }

  /** ClearExpiredCache keeps exactly the entries no older than the
      expiry, each unchanged. */
  lemma SweepKeeps(cache: map<string, IPReputation>, now: int, expiry: int, ip: string)
    ensures ip in Sweep(cache, now, expiry) <==> ip in cache && now - cache[ip].checkedAt <= expiry
    ensures ip in Sweep(cache, now, expiry) ==> Sweep(cache, now, expiry)[ip] == cache[ip]
  {
  }

  /** Sweeping twice at the same time removes nothing more. */
  lemma SweepIdempotent(cache: map<string, IPReputation>, now: int, expiry: int)
    ensures Sweep(Sweep(cache, now, expiry), now, expiry) == Sweep(cache, now, expiry)
  {
  }

  /** An entry exactly as old as the expiry is neither served nor swept. */
  lemma ExpiryBoundary(cache: map<string, IPReputation>, ip: string, now: int, expiry: int)
    requires ip in cache && now - cache[ip].checkedAt == expiry
    ensures !Served(cache, ip, now, expiry)
    ensures ip in Sweep(cache, now, expiry)
  {
  }

  /** Sweeping never changes what a check at the same time returns: every
      entry that would be served survives the sweep. */
  lemma SweepInvisibleToCheck(cache: map<string, IPReputation>, checkIP: (string, int) -> IPCheck,
                              ip: string, now: int, expiry: int)
    ensures CachedCheck(Sweep(cache, now, expiry), checkIP, ip, now, expiry).record
         == CachedCheck(cache, checkIP, ip, now, expiry).record
  {
    var swept := Sweep(cache, now, expiry);
    if Served(cache, ip, now, expiry) {
      assert ip in swept && swept[ip] == cache[ip];
    } else if ip in swept {
      assert swept[ip] == cache[ip];
    }
  }

  /** The cache spares the service a second call: once a miss at `now`
      has stored a record stamped with the time of the call, a check of
      the same address less than `expiry` later is served from the cache
      with that record, whatever the service would answer then. */
  lemma RepeatWithinExpiryIsHit(cache: map<string, IPReputation>, checkIP: (string, int) -> IPCheck,
                                later: (string, int) -> IPCheck, ip: string, now: int, t: int, expiry: int)
    requires !Served(cache, ip, now, expiry)
    requires checkIP(ip, now).Checked? && checkIP(ip, now).record.checkedAt == now
    requires 0 <= t - now < expiry
    ensures var first := CachedCheck(cache, checkIP, ip, now, expiry);
      && Served(first.cache, ip, t, expiry)
      && CachedCheck(first.cache, later, ip, t, expiry) == CacheStep(checkIP(ip, now).record, first.cache)
  {
  }

  // ---------------------------------------------------------------------
  // A run of checks

  /** Checks the addresses in order, each one against the cache the
      previous ones left. */
  function CheckAll(cache: map<string, IPReputation>, checkIP: (string, int) -> IPCheck,
                    ips: seq<string>, now: int, expiry: int): CheckRun {
    if ips == [] then CheckRun([], cache)
    else
      var previous := CheckAll(cache, checkIP, ips[..|ips| - 1], now, expiry);
      var step := CachedCheck(previous.cache, checkIP, ips[|ips| - 1], now, expiry);
      CheckRun(previous.records + [step.record], step.cache)
  }

  /** One record per address, in order, and only the checked addresses'
      entries can change. */
  lemma {:induction false} CheckAllSpec(cache: map<string, IPReputation>, checkIP: (string, int) -> IPCheck,
                                        ips: seq<string>, now: int, expiry: int)
    ensures |CheckAll(cache, checkIP, ips, now, expiry).records| == |ips|
    ensures forall k :: k !in ips ==>
      && (k in CheckAll(cache, checkIP, ips, now, expiry).cache <==> k in cache)
      && (k in cache ==> CheckAll(cache, checkIP, ips, now, expiry).cache[k] == cache[k])
  {
    if ips != [] {
      var init := ips[..|ips| - 1];
      CheckAllSpec(cache, checkIP, init, now, expiry);
    }
  }

  /** The record for the i-th address is the one a check of it against
      the cache left by the earlier addresses returns. */
  lemma {:induction false} CheckAllRecord(cache: map<string, IPReputation>, checkIP: (string, int) -> IPCheck,
                                          ips: seq<string>, now: int, expiry: int, i: nat)
    requires i < |ips|
    ensures |CheckAll(cache, checkIP, ips, now, expiry).records| == |ips|
    ensures CheckAll(cache, checkIP, ips, now, expiry).records[i]
        == CachedCheck(CheckAll(cache, checkIP, ips[..i], now, expiry).cache, checkIP, ips[i], now, expiry).record
    decreases |ips|
  {
    CheckAllSpec(cache, checkIP, ips, now, expiry);
    var init := ips[..|ips| - 1];
    CheckAllSpec(cache, checkIP, init, now, expiry);
    if i < |init| {
      CheckAllRecord(cache, checkIP, init, now, expiry, i);
      assert init[..i] == ips[..i];
    }
  }

  // ---------------------------------------------------------------------
  // The downgrade policy

  /** A poor reputation: confidence above 75 or more than 50 reports. */
  predicate PoorReputation(r: IPReputation) {
    r.abuseConfidenceScore > 75 || r.totalReports > 50
  }

  predicate HighRisk(records: seq<IPReputation>) {
    exists i :: 0 <= i < |records| && PoorReputation(records[i])
  }

  lemma HighRiskSnoc(records: seq<IPReputation>, r: IPReputation)
    ensures HighRisk(records + [r]) <==> HighRisk(records) || PoorReputation(r)
  {
    if HighRisk(records) {
      var i :| 0 <= i < |records| && PoorReputation(records[i]);
      assert (records + [r])[i] == records[i];
    }
    if PoorReputation(r) {
      assert (records + [r])[|records|] == r;
    }
    if HighRisk(records + [r]) {
      var i :| 0 <= i < |records + [r]| && PoorReputation((records + [r])[i]);
      if i < |records| {
        assert records[i] == (records + [r])[i];
      }
    }
  }

  /** ValidateEmailWithReputation as a function of the basic result and
      the cache. */
  function WithReputation(basic: ValidationResult, email: string, dns: Resolver,
                          cache: map<string, IPReputation>, checkIP: (string, int) -> IPCheck,
                          now: int, expiry: int): (o: Outcome)
    ensures o.result.email == basic.email
  {
    if basic.status != StatusValid then Outcome(basic, cache)
    else
      var parts := Split(email, '@');
      if |parts| != 2 then Outcome(basic.(status := StatusInvalid, reason := ReasonFormat), cache)
      else match MailServerIPs(parts[1], dns)
        case Failure(error) =>
          Outcome(basic.(metadata := basic.metadata["ip_reputation_error" := Text("Failed to lookup mail servers: " + error)]), cache)
        case Success(ips) =>
          if |ips| == 0 then Outcome(basic.(status := StatusSuspicious, reason := ReasonNoMailServers), cache)
          else
            var run := CheckAll(cache, checkIP, ips, now, expiry);
            var flagged := if HighRisk(run.records) then basic.(status := StatusSuspicious, reason := ReasonPoorReputation) else basic;
            Outcome(flagged.(metadata := flagged.metadata["ip_reputation" := Reputations(run.records)]["mail_server_ips" := Texts(ips)]),
                    run.cache)
  }

  /** A basic result other than "valid" is returned as it is, with no
      lookup and no check: neither the resolver nor the service matters. */
  lemma NotValidUnchanged(basic: ValidationResult, email: string, dns: Resolver, otherDns: Resolver,
                          cache: map<string, IPReputation>, checkIP: (string, int) -> IPCheck,
                          otherCheck: (string, int) -> IPCheck, now: int, expiry: int)
    requires basic.status != StatusValid
    ensures WithReputation(basic, email, dns, cache, checkIP, now, expiry) == Outcome(basic, cache)
    ensures WithReputation(basic, email, dns, cache, checkIP, now, expiry)
         == WithReputation(basic, email, otherDns, cache, otherCheck, now, expiry)
  {
  }

  /** A valid basic result always comes from an address with exactly two
      '@'-separated parts, so the second split never fails. */
  lemma ResplitNeverFails(email: string, emailRegex: string -> bool, dns: Resolver)
    requires EmailVerdict(email, emailRegex, DomainStep(dns)).status == StatusValid
    ensures |Split(email, '@')| == 2
  {
    EmailVerdictValidIff(email, emailRegex, DomainStep(dns));
  }

  /** A failed mail-server lookup keeps status and reason and only adds the
      error to the metadata; the cache is untouched. */
  lemma LookupFailureKeepsVerdict(basic: ValidationResult, email: string, dns: Resolver,
                                  cache: map<string, IPReputation>, checkIP: (string, int) -> IPCheck,
                                  now: int, expiry: int)
    requires basic.status == StatusValid && |Split(email, '@')| == 2
    requires MailServerIPs(Split(email, '@')[1], dns).Failure?
    ensures var out := WithReputation(basic, email, dns, cache, checkIP, now, expiry);
      && out.result.status == basic.status && out.result.reason == basic.reason
      && out.result.metadata.Keys == basic.metadata.Keys + {"ip_reputation_error"}
      && out.result.metadata["ip_reputation_error"]
           == Text("Failed to lookup mail servers: " + MailServerIPs(Split(email, '@')[1], dns).error)
      && (forall k :: k in basic.metadata && k != "ip_reputation_error" ==> out.result.metadata[k] == basic.metadata[k])
      && out.cache == cache
  {
  }

  /** The status becomes "suspicious" exactly when the domain has no mail
      server address, or one of its addresses has a poor reputation; every
      address is checked, once, in order, and the records and addresses
      are added to the metadata. */
  lemma DowngradeIff(basic: ValidationResult, email: string, dns: Resolver,
                     cache: map<string, IPReputation>, checkIP: (string, int) -> IPCheck,
                     now: int, expiry: int)
    requires basic.status == StatusValid && |Split(email, '@')| == 2
    requires MailServerIPs(Split(email, '@')[1], dns).Success?
    ensures var ips := MailServerIPs(Split(email, '@')[1], dns).value;
      var out := WithReputation(basic, email, dns, cache, checkIP, now, expiry);
      var run := CheckAll(cache, checkIP, ips, now, expiry);
      && (out.result.status == StatusSuspicious <==> |ips| == 0 || HighRisk(run.records))
      && (out.result.status != StatusSuspicious ==> out.result == basic.(metadata := out.result.metadata))
      && (|ips| == 0 ==> out.result.reason == ReasonNoMailServers && out.cache == cache)
      && (|ips| > 0 ==>
            && |run.records| == |ips|
            && out.result.metadata["ip_reputation"] == Reputations(run.records)
            && out.result.metadata["mail_server_ips"] == Texts(ips)
            && out.cache == run.cache
            && (HighRisk(run.records) ==> out.result.reason == ReasonPoorReputation))
  {
    var ips := MailServerIPs(Split(email, '@')[1], dns).value;
    CheckAllSpec(cache, checkIP, ips, now, expiry);
  }

  /** Scores up to 75 and report counts up to 50 never downgrade. */
  lemma ThresholdsAreStrict(records: seq<IPReputation>)
    requires forall i :: 0 <= i < |records| ==> records[i].abuseConfidenceScore <= 75 && records[i].totalReports <= 50
    ensures !HighRisk(records)
  {
  }

  /** A "suspicious" result only ever comes from a valid basic result, and
      the result is always "valid", "invalid" or "suspicious" when the
      basic one is "valid" or "invalid". */
  lemma StatusVocabulary(basic: ValidationResult, email: string, dns: Resolver,
                         cache: map<string, IPReputation>, checkIP: (string, int) -> IPCheck,
                         now: int, expiry: int)
    requires basic.status in {StatusValid, StatusInvalid}
    ensures var out := WithReputation(basic, email, dns, cache, checkIP, now, expiry);
      && out.result.status in {StatusValid, StatusInvalid, StatusSuspicious}
      && (out.result.status == StatusSuspicious ==> basic.status == StatusValid)
      && out.result.email == basic.email
  {
  }

  // ---------------------------------------------------------------------
  // The validator

  /** EnhancedValidator: the basic validator, the reputation service and
      the reputation cache. */
  class EnhancedValidator {
    const basicValidator: Validator
    const checkIP: (string, int) -> IPCheck
    const cacheExpiry: int
    var ipCache: map<string, IPReputation>

    constructor(basicValidator: Validator, checkIP: (string, int) -> IPCheck)
      ensures this.basicValidator == basicValidator && this.checkIP == checkIP
      ensures cacheExpiry == CacheExpiry && ipCache == map[]
    {
      this.basicValidator := basicValidator;
      this.checkIP := checkIP;
      cacheExpiry := CacheExpiry;
      ipCache := map[];
    }

    /** checkIPReputationWithCache: serves a fresh entry, otherwise asks the
        service and stores what it returns; errors are not stored. */
    method CheckIPReputationWithCache(ip: string, now: int) returns (r: IPReputation)
      modifies this`ipCache
      ensures CacheStep(r, ipCache) == CachedCheck(old(ipCache), checkIP, ip, now, cacheExpiry)
    {
      if ip in ipCache {
        var cached := ipCache[ip];
        if now - cached.checkedAt < cacheExpiry {
          return cached;
        }
      }
      var result := checkIP(ip, now);
      if result.CallFailed? {
        return ErrorRecord(ip, result.message, now);
      }
      ipCache := ipCache[ip := result.record];
      return result.record;
    }

    /** ClearExpiredCache: deletes the expired entries one key at a time. */
    method ClearExpiredCache(now: int)
      modifies this`ipCache
      ensures ipCache == Sweep(old(ipCache), now, cacheExpiry)
    {
      ghost var start := ipCache;
      var todo := ipCache.Keys;
      while todo != {}
        invariant todo <= start.Keys
        invariant forall ip :: ip in ipCache <==> ip in start && (ip in todo || !Expired(start[ip], now, cacheExpiry))
        invariant forall ip :: ip in ipCache ==> ipCache[ip] == start[ip]
        decreases todo
      {
        var ip :| ip in todo;
        if now - ipCache[ip].checkedAt > cacheExpiry {
          ipCache := ipCache - {ip};
        }
        todo := todo - {ip};
      }
      assert ipCache.Keys == Sweep(start, now, cacheExpiry).Keys;
    }

    /** The reputation loop: checks every address in order and notes
        whether any has a poor reputation. */
    method CheckReputations(ips: seq<string>, now: int) returns (records: seq<IPReputation>, highRiskFound: bool)
      modifies this`ipCache
      ensures CheckRun(records, ipCache) == CheckAll(old(ipCache), checkIP, ips, now, cacheExpiry)
      ensures highRiskFound == HighRisk(records)
    {
      ghost var start := ipCache;
      records := [];
      highRiskFound := false;
      var i := 0;
      while i < |ips|
        invariant 0 <= i <= |ips|
        invariant CheckRun(records, ipCache) == CheckAll(start, checkIP, ips[..i], now, cacheExpiry)
        invariant highRiskFound == HighRisk(records)
      {
        assert ips[..i + 1][..i] == ips[..i];
        var ipResult := CheckIPReputationWithCache(ips[i], now);
        HighRiskSnoc(records, ipResult);
        records := records + [ipResult];
        if ipResult.abuseConfidenceScore > 75 || ipResult.totalReports > 50 {
          highRiskFound := true;
        }
        i := i + 1;
      }
      assert ips[..i] == ips;
    }

    /** ValidateEmailWithReputation: the basic result, then the mail-server
        lookup, then the reputation of each address. */
    method ValidateEmailWithReputation(email: string, dns: Resolver, now: int) returns (result: ValidationResult)
      modifies this`ipCache
      ensures Outcome(result, ipCache)
        == WithReputation(EmailVerdict(email, basicValidator.emailRegex, DomainStep(dns)),
                          email, dns, old(ipCache), checkIP, now, cacheExpiry)
    {
      result := basicValidator.ValidateEmail(email, dns);
      ghost var basic := result;
      if result.status != StatusValid {
        return;
      }
      var parts := Split(email, '@');
      if |parts| != 2 {
        result := result.(status := StatusInvalid, reason := ReasonFormat);
        return;
      }
      var domain := parts[1];
      var ips := GetMailServerIPs(domain, dns);
      if ips.Failure? {
        result := result.(metadata := result.metadata["ip_reputation_error" := Text("Failed to lookup mail servers: " + ips.error)]);
        return;
      }
      if |ips.value| == 0 {
        result := result.(status := StatusSuspicious, reason := ReasonNoMailServers);
        return;
      }
      var reputationResults, highRiskFound := CheckReputations(ips.value, now);
      if highRiskFound {
        result := result.(status := StatusSuspicious, reason := ReasonPoorReputation);
      }
      result := result.(metadata := result.metadata["ip_reputation" := Reputations(reputationResults)]);
      result := result.(metadata := result.metadata["mail_server_ips" := Texts(ips.value)]);
    }

    /** ValidateEmail: the same as ValidateEmailWithReputation. */
    method ValidateEmail(email: string, dns: Resolver, now: int) returns (result: ValidationResult)
      modifies this`ipCache
      ensures Outcome(result, ipCache)
        == WithReputation(EmailVerdict(email, basicValidator.emailRegex, DomainStep(dns)),
                          email, dns, old(ipCache), checkIP, now, cacheExpiry)
    {
      result := ValidateEmailWithReputation(email, dns, now);
    }
  }
}
