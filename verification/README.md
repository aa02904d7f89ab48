# azlo-validator-shared in Dafny

A model of the decision logic of the shared Go package of the azlo email
validator. It covers:

- the SMTP mailbox probe and the fallback over a domain's mail servers;
- the DNS checks, with MX records ordered by preference;
- the address syntax rules and the case-insensitive list lookups;
- the basic validation pipeline (format, local part, domain, resolution,
  MX, suspicious patterns, disposable domains);
- the validator with mail-server reputation, with its time-limited
  per-address cache and its downgrade to "suspicious";
- the collection of a domain's mail-server addresses (GetMailServerIPs).

Everything the package takes from the outside world is an input of the model:

- A DNS lookup is a `Net.Resolver`: for each name, the outcome of
  `LookupMX`, `LookupIP` and `LookupHost`.
- A mail server is a scripted `Smtp.Session`: whether it can be dialed,
  the reply lines it sends, and whether each write succeeds.
- The reputation service is a function from an address and a time to a
  record or an error.
- The clock is a `now` parameter in nanoseconds.
- The address regular expression is an uninterpreted predicate.

Where the Go code changes state step by step, the model is imperative too:

- `Smtp.Network` and `Smtp.Conn` record what was dialed and written.
- `EnhancedValidation.EnhancedValidator` holds the cache as a `map` field.
- The loops of `CheckSMTP`, `validateDomain`, `ValidateBatch`,
  `GetMailServerIPs`, the reputation check and the cache sweep are
  `while` loops.
- The MX sort is an insertion sort on an `array`.

Each such method is proved against a specification: most are proved
equal to a specification function whose properties are lemmas, and the
MX sort is proved ordered and a permutation of its input.

Files:

- `types.dfy`: shared values (Status, IPReputation, ValidationResult and its metadata).
- `net.dfy`: lookup outcomes and the resolver.
- `strings.dfy`: the pieces of Go's `strings` and `fmt` that the code uses.
- `smtp.dfy`, `dns.dfy`, `syntax.dfy`, `validator.dfy`, `enhanced_validator.dfy`:
  one file per Go file.
- `mail_servers.dfy`: GetMailServerIPs from abuseipdb.go.

Two facts about the pattern lists of `validateDomain` follow from the
lemmas:

- The pattern "temporary" can never be reported, because "temp" is tried
  first.
- Three of the nine disposable domains (tempmail.org, throwaway.email and
  temp-mail.org) are always refused by a suspicious pattern first. So
  "disposable email domain detected" is only ever reported for the other
  six.

## Model

| member | source | states |
|---|---|---|
| Smtp.AnalyzeSMTPResponse | smtp.go:144-183 | The code is copied into the result and the status is never Unknown. Valid with "Mailbox confirmed" exactly for 200..299. Invalid with "Mailbox does not exist" exactly for 550, 551 and 553. 552 gives the quota reason. Other codes of 500 and above give "Server rejected the request: <code> <msg>". 400..499 is greylisted. Every other code gives "Unknown SMTP response: <code> <msg>". |
| Smtp.ReadResponse | smtp.go:192-215 | A failed read gives code 0 and no text. A line shorter than 3 characters, or without a leading integer, gives code 0 and the line itself. Any other line gives its scanned integer, and the trimmed text from its fifth character on (empty when the line has at most 4 characters). |
| Smtp.ReadResponseOfReplyLine | smtp.go:192-215 | A line "<3-digit code> <text>" reads back as exactly that code and the trimmed text. |
| Smtp.Send | smtp.go:186-189 | Writes the command followed by CRLF as one frame. Reports the outcome the connection scripts for that write. |
| Smtp.Handshake | smtp.go:84-140 | The handshake from reply k never yields Unknown and writes between k and 4 commands. Unless all four are written, the result is Risky with code 0 or a non-2xx code. |
| Smtp.HandshakeStopsAt | smtp.go:84-133 | The first failing step decides. A greeting, HELO or MAIL FROM reply that is not 2xx gives Risky "Server greeting failed: <code> <text>", "HELO command rejected: …" or "MAIL FROM command rejected: …" with that reply's code, and the next command is not written. A failed HELO, MAIL FROM or RCPT TO write gives Risky "<command> command failed" with code 0, after that write. |
| Smtp.HandshakeOutcome | smtp.go:84-140 | If greeting, HELO and MAIL FROM are accepted and their writes succeed, the result is the classification of the RCPT TO reply and QUIT is written. Otherwise the result is Risky and QUIT is never written. |
| Smtp.ProbeServer | smtp.go:64-141 | A server that cannot be dialed gives Risky "Could not connect to SMTP server <host>", code 0, with nothing written. The result is never Unknown. |
| Smtp.ProbeServerOutcome | smtp.go:64-141 | Only a server that accepts the whole exchange up to a written RCPT TO can give Valid or Invalid, and then it is the RCPT TO classification. Every other server is Risky, with code 0 or a non-2xx code. |
| Smtp.HandshakeIgnoresLater | smtp.go:84-140 | Only the replies and writes up to RCPT TO influence the handshake. |
| Smtp.ProbeIgnoresQuit | smtp.go:137-140 | The outcome of the QUIT write, and anything after it, never changes the result. |
| Smtp.ProbeOfCooperativeServer | smtp.go:84-140 | A server that accepts every step with well-formed lines is judged by the code and trimmed text of its RCPT TO line. |
| Smtp.Converse | smtp.go:84-140 | The dialogue on an open connection returns what Handshake predicts. It writes exactly the commands Handshake says, in order. |
| Smtp.ProbeStep | smtp.go:84-125 | One reply-and-command step either stops with Handshake's result and writes, or writes command k and leaves the result to the next step. |
| Smtp.FinishProbe | smtp.go:135-140 | Reads the RCPT TO reply and writes QUIT. Returns the RCPT TO classification whatever the QUIT write does. |
| Smtp.CheckSMTPServer | smtp.go:64-141 | Dials host:25 exactly once. Returns ProbeServer's result and sends exactly its frames. |
| Smtp.Probed | smtp.go:43-53 | The fallback dials at most as many servers as given, and at least one when the list is not empty. |
| Smtp.Fallback | smtp.go:43-60 | The fallback verdict is Valid or Invalid, or else the fixed "all uncertain" result. Characterised by FallbackFirstDefinitive and FallbackAllUncertain. |
| Smtp.SMTPVerdict | smtp.go:33-61 | Never Unknown. An empty server list gives "No SMTP servers found for the domain"; otherwise the verdict is definitive or the fixed "all uncertain" result. |
| Smtp.FallbackFirstDefinitive | smtp.go:43-49 | The first Valid or Invalid answer in list order is returned unchanged, and no later server is dialed. |
| Smtp.FallbackAllUncertain | smtp.go:55-60 | If no server answers definitively, every server is dialed and the result is Risky "All SMTP servers returned uncertain results", code 0. |
| Smtp.FallbackDefinitiveComesFromAServer | smtp.go:43-53 | A definitive verdict is the answer of the last server dialed, and every earlier server was uncertain. |
| Smtp.CheckSMTP | smtp.go:33-61 | An empty list gives Invalid "No SMTP servers found for the domain" with nothing dialed or written. Otherwise the result is the fallback verdict. The dial log and the transcript are exactly those of the servers probed, in order. |
| Dns.LookupError | dns.go:14-30 | No error exactly when the lookup answered with at least one record. Not found is reported as "domain does not exist" even when the lookup also timed out. Otherwise a timeout is "DNS lookup timeout", any other error is "failed to lookup <kind> records", and an empty answer is "no <kind> records found for the domain". |
| Dns.LookupErrorsDistinct | dns.go:15-29 | The four error messages identify which failure occurred. |
| Dns.NormalizeIdempotent | dns.go:12 | Trimming and lower-casing a name a second time changes nothing. |
| Dns.SortByPref | dns.go:32-35 | The records end up in non-decreasing preference order and are a permutation of the input. The order of equal preferences is left open. |
| Dns.InsertByPref | dns.go:33-35 | One insertion step extends the sorted prefix by one and keeps the multiset of records. |
| Dns.CheckMX | dns.go:11-38 | Fails exactly when the lookup of the normalised name fails or is empty, with the classified message. On success it returns the records sorted by preference, as a permutation of the lookup result. |
| Dns.CheckA | dns.go:41-62 | Fails exactly when the lookup of the normalised name fails or is empty, with the classified message for "A" records. On success it returns the addresses unchanged and non-empty. |
| Dns.DomainError | dns.go:65-80 | Either no error or the MX lookup's error. Characterised by DomainErrorCharacterised. |
| Dns.ValidateDomain | dns.go:65-80 | Returns exactly the error of the specification DomainError. |
| Dns.DomainErrorCharacterised | dns.go:65-80 | A domain is accepted exactly when the MX lookup or the address lookup finds records. A rejection carries the MX error. |
| Dns.DomainErrorIgnoresAWhenMXFound | dns.go:66-70 | When MX records exist, the address lookup is never consulted. |
| Syntax.ContainsDoubleDot | syntax.go:42-44 | strings.Contains(s, "..") holds exactly when two adjacent characters are dots. |
| Syntax.IsValidSyntax | syntax.go:12-52 | An accepted address is 1 to 254 characters long, matches the pattern and has exactly one '@'. Fully characterised by IsValidSyntaxIff. |
| Syntax.IsValidSyntaxIff | syntax.go:12-52 | An address is accepted exactly when all of the following hold: it is 1 to 254 characters long and matches the pattern; it has one '@', with at most 64 characters before it and at most 253 after it; it has no ".." anywhere; its local part neither starts nor ends with '.'. |
| Syntax.ValidSyntaxParts | syntax.go:23-39 | An accepted address splits into exactly two parts within the length limits, and they join back to the address. |
| Syntax.IsDisposable | syntax.go:55-58 | True exactly when the lower-cased domain is a key of the map whose value is true. A missing key reads as false. |
| Syntax.IsRoleBased | syntax.go:61-64 | True exactly when the lower-cased local part is a key of the map whose value is true. A missing key reads as false. |
| Syntax.IsDisposableIgnoresCase | syntax.go:55-58 | The answer is the same for any casing of the domain. |
| Syntax.IsRoleBasedIgnoresCase | syntax.go:61-64 | The answer is the same for any casing of the local part. |
| Validation.MXLinesSpec | validator.go:125-129 | There is one "mx_records" entry per MX record, and entry i describes record i as "<host> (priority: <pref>)". |
| Validation.FirstPatternSpec | validator.go:138-146 | No pattern is found exactly when no pattern occurs. A found pattern occurs, and no earlier pattern does. |
| Validation.ScreenPassesIff | validator.go:132-163 | A lower-cased domain passes the pattern and list checks exactly when it contains no suspicious pattern and is no disposable domain. |
| Validation.SuspiciousNamesFirstMatch | validator.go:138-146 | A suspicious-pattern refusal names the first matching pattern in list order. |
| Validation.TemporaryNeverReported | validator.go:133-146 | "temporary" is never the reported pattern. |
| Validation.DisposableReportedOnlyForSix | validator.go:148-163 | The disposable refusal is only ever given for six of the nine listed domains. |
| Validation.DomainVerdict | validator.go:92-171 | An unresolved domain is refused with empty metadata, and a passing domain always has the reason "domain validation passed". Characterised by DomainVerdictReason, DomainVerdictValidIff and DomainVerdictMetadata. |
| Validation.DomainVerdictReason | validator.go:92-171 | The first failing check decides. Unresolved comes first, with empty metadata and without consulting MX. A missing or empty MX answer gives "no MX records found". Then the pattern and list checks decide, and "domain validation passed" only when both pass. |
| Validation.DomainVerdictValidIff | validator.go:92-171 | A domain passes exactly when it resolves, has an MX record, contains no suspicious pattern and is no disposable domain, both ignoring case. |
| Validation.UnresolvedIgnoresMX | validator.go:96-103 | An unresolved domain is refused whatever MX would answer. |
| Validation.DomainVerdictMetadata | validator.go:93-130 | Metadata is empty exactly when the domain does not resolve. Otherwise "domain_resolves" is true. With MX records the keys are exactly domain_resolves, mx_records and mx_count, with one description per record and the record count. |
| Validation.EmailVerdict | validator.go:27-82 | The address is kept, the status is "valid" or "invalid", and a valid result has the reason "email appears valid". Characterised by EmailVerdictValidIff and DomainStepDecides. |
| Validation.EmailVerdictValidIff | validator.go:27-82 | "valid" exactly when all of the following hold: the pattern matches; there is one '@'; the local part has 1 to 64 characters; the domain has 1 to 253 characters; the domain check passes. The status is always "valid" or "invalid". |
| Validation.EmailParts | validator.go:41-49 | With one '@' the parts are the text before and after it. |
| Validation.ShapeFailureNeedsNoLookup | validator.go:33-63 | A format or length failure is "invalid" with one of the three shape reasons and no metadata, whatever the DNS would say. |
| Validation.LocalLengthBeforeDomainLength | validator.go:51-63 | A local part that is empty or too long is reported before the domain length is looked at. |
| Validation.DomainStepDecides | validator.go:65-81 | For a well-shaped address, the domain check's metadata is copied on every outcome. Its reason is reported on refusal, and "email appears valid" on success. |
| Validation.Validator.ValidateEmail | validator.go:27-82 | Builds exactly the result of EmailVerdict with the DNS-backed domain check. |
| Validation.Validator.ValidateDomain | validator.go:92-171 | The loops over MX records, patterns and disposable domains compute exactly DomainVerdict. |
| Validation.Validator.ValidateBatch | validator.go:174-182 | There is one result per address, in order, and result i is the verdict for address i. |
| Validation.CopyMetadata | validator.go:67-69 | Copying the entries one key at a time gives the union, with the copied entries winning. |
| MailServers.DedupSpec | abuseipdb.go:170-177 | The kept addresses have no repetition and are exactly the addresses met. |
| MailServers.DedupPrefix | abuseipdb.go:170-177 | What is kept of a prefix is a prefix of what is kept of the whole, so first-occurrence order holds. |
| MailServers.DedupOfDistinct | abuseipdb.go:170-177 | A list without repetitions is kept as it is. |
| MailServers.AllAddrsMembers | abuseipdb.go:161-178 | An address is collected exactly when some exchanger's host lookup returns it. |
| MailServers.MailServerIPs | abuseipdb.go:151-181 | Succeeds exactly when the MX lookup answers. Characterised by MailServerIPsSpec. |
| MailServers.MailServerIPsSpec | abuseipdb.go:151-181 | Fails exactly when the MX lookup fails, with "failed to lookup MX records: <error>". Otherwise it returns every address of every resolving exchanger, each once, and nothing else. |
| MailServers.EarlierExchangersFirst | abuseipdb.go:161-178 | The addresses of the first n exchangers come first in the result. |
| MailServers.SkippedHost | abuseipdb.go:166-169 | An exchanger whose host lookup fails changes nothing, as if it were absent. |
| MailServers.TrailingDotIgnored | abuseipdb.go:163 | A trailing dot on the exchanger name does not change the host that is looked up. |
| MailServers.GetMailServerIPs | abuseipdb.go:151-181 | The nested loops with the seen-map compute exactly MailServerIPs. |
| MailServers.ScanExchanger | abuseipdb.go:162-178 | One exchanger adds the new addresses of its host, or nothing when the host lookup fails. The seen-map stays equal to the kept list. |
| MailServers.AddUnseen | abuseipdb.go:171-177 | Appends each address not seen yet, in order, and keeps the seen-map equal to the kept list. |
| EnhancedValidation.CachedCheck | enhanced_validator.go:96-124 | The cache is either left as it is or gains the returned record under the checked address. Characterised by CacheHit and CacheMiss. |
| EnhancedValidation.Sweep | enhanced_validator.go:132-142 | The sweep only removes entries. Characterised by SweepKeeps. |
| EnhancedValidation.CacheHit | enhanced_validator.go:97-104 | An entry younger than the expiry is returned as it is. The cache is unchanged and the reputation service is not consulted. |
| EnhancedValidation.CacheMiss | enhanced_validator.go:107-123 | On a miss, a record from the service is stored under that address only. On an error, the returned record carries the address, "API error: <msg>" and the time, and the cache is unchanged. |
| EnhancedValidation.SweepKeeps | enhanced_validator.go:132-142 | The sweep keeps exactly the entries no older than the expiry, each unchanged. |
| EnhancedValidation.SweepIdempotent | enhanced_validator.go:132-142 | Sweeping twice at the same time removes nothing more. |
| EnhancedValidation.ExpiryBoundary | enhanced_validator.go:96-142 | An entry exactly as old as the expiry is neither served nor swept. |
| EnhancedValidation.SweepInvisibleToCheck | enhanced_validator.go:96-142 | A sweep never changes what a check at the same time returns. |
| EnhancedValidation.RepeatWithinExpiryIsHit | enhanced_validator.go:96-124 | After a miss stores a record stamped with the time of the call, a check of the same address less than the expiry later is served from the cache with that record, whatever the service would say. |
| EnhancedValidation.CheckAllSpec | enhanced_validator.go:69-77 | A run gives one record per address. Entries of addresses not checked are untouched. |
| EnhancedValidation.CheckAllRecord | enhanced_validator.go:69-77 | Record i is what checking address i returns against the cache that the earlier checks left. |
| EnhancedValidation.HighRiskSnoc | enhanced_validator.go:73-76 | One more record flags the run exactly when it or an earlier one has a poor reputation. |
| EnhancedValidation.WithReputation | enhanced_validator.go:32-93 | The address of the basic result is kept. Characterised by NotValidUnchanged, LookupFailureKeepsVerdict, DowngradeIff and StatusVocabulary. |
| EnhancedValidation.NotValidUnchanged | enhanced_validator.go:36-39 | A basic result other than "valid" is returned unchanged. No lookup or check happens, and the cache is kept. |
| EnhancedValidation.ResplitNeverFails | enhanced_validator.go:41-47 | A valid basic result always re-splits into two parts. |
| EnhancedValidation.LookupFailureKeepsVerdict | enhanced_validator.go:50-57 | A failed mail-server lookup keeps status and reason, adds only "ip_reputation_error" with the error text, and leaves the cache alone. |
| EnhancedValidation.DowngradeIff | enhanced_validator.go:59-92 | "suspicious" exactly when there is no address or some record has a poor reputation, with the matching reason. Otherwise only the metadata changes. There is one record per address, in order, stored with the address list. |
| EnhancedValidation.ThresholdsAreStrict | enhanced_validator.go:74 | A score of at most 75 and at most 50 reports never downgrade. |
| EnhancedValidation.StatusVocabulary | enhanced_validator.go:32-93 | From a valid or invalid basic result the status is valid, invalid or suspicious. Suspicious only ever comes from valid. The address is kept. |
| EnhancedValidation.EnhancedValidator.constructor | enhanced_validator.go:22-29 | Starts with an empty cache and an expiry of 24 hours. |
| EnhancedValidation.EnhancedValidator.CheckIPReputationWithCache | enhanced_validator.go:96-124 | Returns the record and leaves the cache exactly as CachedCheck specifies. |
| EnhancedValidation.EnhancedValidator.ClearExpiredCache | enhanced_validator.go:132-142 | Deleting key by key leaves exactly the Sweep of the old cache. |
| EnhancedValidation.EnhancedValidator.CheckReputations | enhanced_validator.go:65-77 | The loop returns the records and cache of CheckAll, and flags exactly the runs with a poor reputation. |
| EnhancedValidation.EnhancedValidator.ValidateEmailWithReputation | enhanced_validator.go:32-93 | The result and the new cache are WithReputation of the basic verdict and the old cache. |
| EnhancedValidation.EnhancedValidator.ValidateEmail | enhanced_validator.go:127-129 | Behaves exactly as ValidateEmailWithReputation. |

## Left out

- Sockets, deadlines and DNS resolution are not performed. Sessions and lookup outcomes are inputs. A deadline that passes is a failed read or write.
- The reputation service (AbuseIPDBClient.CheckIP, NewAbuseIPDBClient, HTTP and JSON decoding) is a function input. Only GetMailServerIPs from abuseipdb.go is modelled.
- Regular expressions are not modelled. The address pattern is a predicate supplied to `Syntax.IsValidSyntax` and to `Validation.Validator`, so the fixed pattern of NewValidator is not part of this model.
- `time.Now` and `time.Since` are the `now` parameter. One call of ValidateEmailWithReputation uses one clock reading for all its checks.
- The read/write mutex of EnhancedValidator is not modelled. The model is sequential.
- Logging, GetCacheStats and GetValidatorStats are not modelled, because they only report.
- Strings are sequences of characters. Go's `len` counts bytes, so the length limits agree with Go only for ASCII addresses. `strings.ToLower` is modelled for ASCII letters only.
- `Smtp.ReadResponse` reads one line per reply. A multi-line reply ("250-…" continuation lines) is seen line by line, as bufio.ReadLine does. The model makes no claim about multi-line replies beyond that.
- `Dns.SortByPref` is an insertion sort. It promises only what sort.Slice promises: ordered and a permutation. The order of equal preferences is not fixed.
- EnhancedValidation.RepeatWithinExpiryIsHit: takes as a hypothesis that the service stamps its record with the time of the call. CheckIP sets CheckedAt to the current time on every return path, but the service is an input of the model, so its time stamp is an input too.
- `Smtp.Session`s are keyed by server address. A server listed twice (duplicate MX hosts) replays the same script on its second connection. The model does not capture a server that answers a later connection differently, for example after greylisting.
- `EnhancedValidation.EnhancedValidator.CheckIPReputationWithCache` returns records by value. In the Go code the cache and every caller share the same record object. Nothing in the package mutates a record, so the aliasing is not captured.
- The seen-set of GetMailServerIPs is a `map<string, bool>`, as in Go. An address counts as seen when it is present with value true.
- Metadata values are a small datatype (`Types.Meta`) instead of `interface{}`. Only the keys the package writes are modelled.
