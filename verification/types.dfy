/** Values shared by the whole validator: error-carrying results, the
    verdict vocabulary of types.go, the reputation record of abuseipdb.go
    and the validation result with its metadata. */
module Types {

  datatype Option<+T> = None | Some(value: T)

  /** A Go `(value, error)` pair: exactly one of the two is meaningful. */
  datatype Result<+T> = Success(value: T) | Failure(error: string)

  /** The Status values of types.go. */
  datatype Status = Valid | Invalid | Risky | Unknown

  /** Status strings written into ValidationResult.status. */
  const StatusValid := "valid"
  const StatusInvalid := "invalid"
  const StatusSuspicious := "suspicious"

  /** IPReputationResult; times are nanosecond clock readings. */
  datatype IPReputation = IPReputation(
    ipAddress: string,
    isWhitelisted: bool,
    abuseConfidenceScore: int,
    totalReports: int,
    countryCode: string,
    isp: string,
    domain: string,
    lastReportedAt: int,
    checkedAt: int,
    error: string)

  /** The values stored in Result.Metadata (a `map[string]interface{}`). */
  datatype Meta =
    | Flag(flag: bool)
    | Number(number: int)
    | Text(text: string)
    | Texts(texts: seq<string>)
    | Reputations(records: seq<IPReputation>)

  /** Result of validating one address (JobID is transport and left out). */
  datatype ValidationResult = ValidationResult(
    email: string,
    status: string,
    reason: string,
    metadata: map<string, Meta>)
}
