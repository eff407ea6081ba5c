/**
 * The DNS resolution collaborator, as the checks see it.
 *
 * The script calls `dns.resolver.resolve(name, type)`, which either returns
 * the records of that type at that name (in the order the resolver gives
 * them), raises `NoAnswer` (the name exists but has no records of that
 * type), or raises some other exception (timeout, NXDOMAIN, network error,
 * ...). Here that call is an injected value: a `Resolver` maps a query name
 * to an `Answer` for each of the two record types the script asks for.
 */
module Dns {

  /** The two record types the script queries. */
  datatype RecordType = MX | TXT

  /** One call to the resolver: the name asked for and the record type. */
  datatype Query = Query(name: string, rtype: RecordType)

  /** An MX preference is an unsigned 16-bit number on the wire. */
  type Preference = x: int | 0 <= x < 0x1_0000

  /** One MX record: the mail exchanger's host name and its preference. */
  datatype MxRecord = MxRecord(exchange: string, preference: Preference)

  /**
   * What one resolver call produces: the records returned, the `NoAnswer`
   * exception, or any other exception together with its message text.
   * TXT records are kept as their rendered text, an opaque string.
   */
  datatype Answer<+R> =
    | Records(records: seq<R>)
    | NoAnswer
    | OtherError(message: string)

  /** The resolver, fixed for one run: its answer to every MX and TXT query. */
  datatype Resolver = Resolver(mx: string -> Answer<MxRecord>, txt: string -> Answer<string>)
}
