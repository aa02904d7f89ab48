/** GetMailServerIPs (abuseipdb.go): the addresses of a domain's mail
    exchangers, each address once, in the order first met: exchangers in
    the order the MX lookup returns them, and each exchanger's addresses in
    the order its host lookup returns them.  Exchangers whose host lookup
    fails are skipped. */
module MailServers {
  import opened Types
  import opened Strings
  import opened Net

  /** The text of a lookup error. */
  function ErrorText<T>(l: Lookup<T>): string
    requires !l.Answer?
  {
    match l
    case DnsError(message, _, _) => message
    case OtherError(message) => message
  }

  // ---------------------------------------------------------------------
  // Specification

  /** The addresses of one exchanger: its host, without the trailing dot,
      looked up; none when that lookup fails. */
  function HostAddrs(mx: MX, dns: Resolver): seq<string> {
    match dns.lookupHost(TrimSuffix(mx.host, "."))
    case Answer(addrs) => addrs
    case _ => []
  }

  /** Every exchanger's addresses, one exchanger after the other. */
  function AllAddrs(records: seq<MX>, dns: Resolver): seq<string> {
    if records == [] then []
    else AllAddrs(records[..|records| - 1], dns) + HostAddrs(records[|records| - 1], dns)
  }

  /** The first occurrence of each element, in order. */
  function Dedup(xs: seq<string>): seq<string> {
    if xs == [] then []
    else
      var kept := Dedup(xs[..|xs| - 1]);
      if xs[|xs| - 1] in kept then kept else kept + [xs[|xs| - 1]]
  }

  predicate NoDuplicates(xs: seq<string>) {
    forall i, j :: 0 <= i < j < |xs| ==> xs[i] != xs[j]
  }

  /** GetMailServerIPs as a function of the lookups. */
  function MailServerIPs(domain: string, dns: Resolver): (r: Result<seq<string>>)
    ensures r.Success? <==> dns.lookupMX(domain).Answer?
  {
    var mx := dns.lookupMX(domain);
    if !mx.Answer? then Failure("failed to lookup MX records: " + ErrorText(mx))
    else Success(Dedup(AllAddrs(mx.records, dns)))
  }

  // ---------------------------------------------------------------------
  // Properties

  /** Dedup drops exactly the repetitions: the same elements, each once. */
  lemma {:induction false} DedupSpec(xs: seq<string>)
    ensures NoDuplicates(Dedup(xs))
    ensures forall a :: a in Dedup(xs) <==> a in xs
  {
    if xs != [] {
      var init := xs[..|xs| - 1];
      DedupSpec(init);
      assert xs == init + [xs[|xs| - 1]];
    }
  }

  /** Dedup keeps first-occurrence order: what it keeps of a prefix is a
      prefix of what it keeps of the whole. */
  lemma {:induction false} DedupPrefix(xs: seq<string>, ys: seq<string>)
    ensures Dedup(xs) <= Dedup(xs + ys)
    decreases |ys|
  {
    if ys != [] {
      var init := ys[..|ys| - 1];
      DedupPrefix(xs, init);
      assert (xs + ys)[..|xs + ys| - 1] == xs + init;
    } else {
      assert xs + ys == xs;
    }
  }

  /** A list without repetitions is kept as it is. */
  lemma {:induction false} DedupOfDistinct(xs: seq<string>)
    requires NoDuplicates(xs)
    ensures Dedup(xs) == xs
  {
    if xs != [] {
      var init := xs[..|xs| - 1];
      DedupOfDistinct(init);
      assert xs[|xs| - 1] !in init by {
        forall i | 0 <= i < |init|
          ensures init[i] != xs[|xs| - 1]
        {
          assert init[i] == xs[i];
        }
      }
      assert xs == init + [xs[|xs| - 1]];
    }
  }

  /** An address is among all addresses exactly when some exchanger has it. */
  lemma {:induction false} AllAddrsMembers(records: seq<MX>, dns: Resolver, a: string)
    ensures a in AllAddrs(records, dns) <==> exists k :: 0 <= k < |records| && a in HostAddrs(records[k], dns)
  {
    if records != [] {
      var init := records[..|records| - 1];
      AllAddrsMembers(init, dns, a);
      if a in AllAddrs(init, dns) {
        var k :| 0 <= k < |init| && a in HostAddrs(init[k], dns);
        assert records[k] == init[k];
      }
      if exists k :: 0 <= k < |records| && a in HostAddrs(records[k], dns) {
        var k :| 0 <= k < |records| && a in HostAddrs(records[k], dns);
        if k < |init| {
          assert init[k] == records[k];
        }
      }
    }
  }

  /** The exchangers' addresses split at any point. */
  lemma {:induction false} AllAddrsAppend(xs: seq<MX>, ys: seq<MX>, dns: Resolver)
    ensures AllAddrs(xs + ys, dns) == AllAddrs(xs, dns) + AllAddrs(ys, dns)
    decreases |ys|
  {
    if ys == [] {
      assert xs + ys == xs;
    } else {
      var init := ys[..|ys| - 1];
      AllAddrsAppend(xs, init, dns);
      DropLastOfAppend(xs, ys);
    }
  }

  /** Dropping the last element of xs + ys drops the last element of ys. */
  lemma DropLastOfAppend<T>(xs: seq<T>, ys: seq<T>)
    requires ys != []
    ensures (xs + ys)[..|xs + ys| - 1] == xs + ys[..|ys| - 1]
  {
  }

  /** An exchanger whose host lookup fails contributes nothing: the result
      is the same as without it. */
  lemma SkippedHost(domain: string, dns: Resolver, k: nat)
    requires dns.lookupMX(domain).Answer? && k < |dns.lookupMX(domain).records|
    requires !dns.lookupHost(TrimSuffix(dns.lookupMX(domain).records[k].host, ".")).Answer?
    ensures var records := dns.lookupMX(domain).records;
      MailServerIPs(domain, dns) == Success(Dedup(AllAddrs(records[..k] + records[k + 1..], dns)))
  {
    var records := dns.lookupMX(domain).records;
    assert HostAddrs(records[k], dns) == [];
    AllAddrsSkip(records, k, dns);
  }

  /** Dropping an exchanger without addresses leaves all addresses as they are. */
  lemma AllAddrsSkip(records: seq<MX>, k: nat, dns: Resolver)
    requires k < |records| && HostAddrs(records[k], dns) == []
    ensures AllAddrs(records, dns) == AllAddrs(records[..k] + records[k + 1..], dns)
  {
    var front, back := records[..k], records[k + 1..];
    var upTo := records[..k + 1];
    assert records == upTo + back;
    AllAddrsStep(records, k, dns);
    assert AllAddrs(upTo, dns) == AllAddrs(front, dns);
    AllAddrsAppend(upTo, back, dns);
    AllAddrsAppend(front, back, dns);
  }

  /** What GetMailServerIPs promises: an MX failure is reported with the
      lookup's text; otherwise every address of every exchanger that
      resolves appears, once, and nothing else does. */
  lemma MailServerIPsSpec(domain: string, dns: Resolver)
    ensures var mx := dns.lookupMX(domain);
      && (MailServerIPs(domain, dns).Failure? <==> !mx.Answer?)
      && (!mx.Answer? ==> MailServerIPs(domain, dns).error == "failed to lookup MX records: " + ErrorText(mx))
      && (mx.Answer? ==>
            var ips := MailServerIPs(domain, dns).value;
            && NoDuplicates(ips)
            && forall a :: a in ips <==> exists k :: 0 <= k < |mx.records| && a in HostAddrs(mx.records[k], dns))
  {
    var mx := dns.lookupMX(domain);
    if mx.Answer? {
      DedupSpec(AllAddrs(mx.records, dns));
      forall a
        ensures a in AllAddrs(mx.records, dns) <==> exists k :: 0 <= k < |mx.records| && a in HostAddrs(mx.records[k], dns)
      {
        AllAddrsMembers(mx.records, dns, a);
      }
    }
  }

  /** The addresses of earlier exchangers come first: the result for the
      first n exchangers is a prefix of the result for all of them. */
  lemma EarlierExchangersFirst(domain: string, dns: Resolver, n: nat)
    requires dns.lookupMX(domain).Answer? && n <= |dns.lookupMX(domain).records|
    ensures var records := dns.lookupMX(domain).records;
      Dedup(AllAddrs(records[..n], dns)) <= MailServerIPs(domain, dns).value
  {
    var records := dns.lookupMX(domain).records;
    assert records == records[..n] + records[n..];
    AllAddrsAppend(records[..n], records[n..], dns);
    DedupPrefix(AllAddrs(records[..n], dns), AllAddrs(records[n..], dns));
  }

  /** A trailing dot on an exchanger's name makes no difference to the
      host that is looked up. */
  lemma TrailingDotIgnored(host: string, pref: Uint16, dns: Resolver)
    requires !HasSuffix(host, ".")
    ensures HostAddrs(MX(host + ".", pref), dns) == HostAddrs(MX(host, pref), dns)
  {
    assert HasSuffix(host + ".", ".");
    assert TrimSuffix(host + ".", ".") + "." == host + ".";
    assert TrimSuffix(host + ".", ".") == (host + ".")[..|host|];
  }

  /** Taking one more exchanger appends its addresses. */
  lemma AllAddrsStep(records: seq<MX>, i: nat, dns: Resolver)
    requires i < |records|
    ensures AllAddrs(records[..i + 1], dns) == AllAddrs(records[..i], dns) + HostAddrs(records[i], dns)
  {
    assert records[..i + 1][..i] == records[..i];
  }

  /** Taking one more address keeps it exactly when it is new. */
  lemma DedupStep(xs: seq<string>, a: string)
    ensures Dedup(xs + [a]) == if a in xs then Dedup(xs) else Dedup(xs) + [a]
  {
    assert (xs + [a])[..|xs|] == xs;
    DedupSpec(xs);
  }

  // ---------------------------------------------------------------------
  // The procedure

  /** GetMailServerIPs: nested loops over exchangers and their addresses,
      remembering the addresses already taken in a map. */
  method GetMailServerIPs(domain: string, dns: Resolver) returns (r: Result<seq<string>>)
    ensures r == MailServerIPs(domain, dns)
  {
    var mx := dns.lookupMX(domain);
    if !mx.Answer? {
      return Failure("failed to lookup MX records: " + ErrorText(mx));
    }
    var records := mx.records;
    var ips: seq<string> := [];
    var seenIPs: map<string, bool> := map[];
    var i := 0;
    while i < |records|
      invariant 0 <= i <= |records|
      invariant ips == Dedup(AllAddrs(records[..i], dns))
      invariant forall a :: (a in seenIPs && seenIPs[a]) <==> a in ips
    {
      AllAddrsStep(records, i, dns);
      ips, seenIPs := ScanExchanger(records[i], dns, ips, seenIPs, AllAddrs(records[..i], dns));
      i := i + 1;
    }
    assert records[..i] == records;
    return Success(ips);
  }

  /** One exchanger: its host, without the trailing dot, is looked up, and
      on success its new addresses are taken; on failure it is skipped. */
  method ScanExchanger(mx: MX, dns: Resolver, ips: seq<string>, seenIPs: map<string, bool>, ghost before: seq<string>)
    returns (ips': seq<string>, seenIPs': map<string, bool>)
    requires ips == Dedup(before)
    requires forall a :: (a in seenIPs && seenIPs[a]) <==> a in ips
    ensures ips' == Dedup(before + HostAddrs(mx, dns))
    ensures forall a :: (a in seenIPs' && seenIPs'[a]) <==> a in ips'
  {
    var hostname := TrimSuffix(mx.host, ".");
    var lookup := dns.lookupHost(hostname);
    if !lookup.Answer? {
      assert before + HostAddrs(mx, dns) == before;
      return ips, seenIPs;
    }
    ips', seenIPs' := AddUnseen(ips, seenIPs, lookup.records, before);
  }

  /** The inner loop: appends each address not seen yet and marks it seen. */
  method AddUnseen(ips: seq<string>, seenIPs: map<string, bool>, addrs: seq<string>, ghost before: seq<string>)
    returns (ips': seq<string>, seenIPs': map<string, bool>)
    requires ips == Dedup(before)
    requires forall a :: (a in seenIPs && seenIPs[a]) <==> a in ips
    ensures ips' == Dedup(before + addrs)
    ensures forall a :: (a in seenIPs' && seenIPs'[a]) <==> a in ips'
  {
    ips', seenIPs' := ips, seenIPs;
    var j := 0;
    assert before + addrs[..0] == before;
    while j < |addrs|
      invariant 0 <= j <= |addrs|
      invariant ips' == Dedup(before + addrs[..j])
      invariant forall a :: (a in seenIPs' && seenIPs'[a]) <==> a in ips'
    {
      var addr := addrs[j];
      AddressStep(before, addrs, j);
      if !(addr in seenIPs' && seenIPs'[addr]) {
        ips' := ips' + [addr];
        seenIPs' := seenIPs'[addr := true];
      }
      j := j + 1;
    }
    assert addrs[..j] == addrs;
  }

  /** One address further: it is kept exactly when not kept already. */
  lemma AddressStep(before: seq<string>, addrs: seq<string>, j: nat)
    requires j < |addrs|
    ensures var kept := Dedup(before + addrs[..j]);
      Dedup(before + addrs[..j + 1]) == if addrs[j] in kept then kept else kept + [addrs[j]]
  {
    assert before + addrs[..j + 1] == (before + addrs[..j]) + [addrs[j]];
    DedupStep(before + addrs[..j], addrs[j]);
    DedupSpec(before + addrs[..j]);
  }
}
