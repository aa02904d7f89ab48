/** The resolver calls of Go's `net` package, replaced by their outcomes.
    A `Resolver` says what each lookup answers for each name; the model
    never performs a lookup itself. */
module Net {

  type Uint16 = x: int | 0 <= x < 0x1_0000

  /** net.MX: a mail exchanger and its preference (lower is tried first). */
  datatype MX = MX(host: string, pref: Uint16)

  /** The outcome of one lookup: a *net.DNSError with its IsNotFound and
      IsTimeout flags, any other error, or the records found. */
  datatype Lookup<T> =
    | DnsError(message: string, isNotFound: bool, isTimeout: bool)
    | OtherError(message: string)
    | Answer(records: seq<T>)

  /** net.LookupMX, net.LookupIP (addresses as text) and net.LookupHost. */
  datatype Resolver = Resolver(
    lookupMX: string -> Lookup<MX>,
    lookupIP: string -> Lookup<string>,
    lookupHost: string -> Lookup<string>)
}
