/** The errors the updater distinguishes. The Go program carries them as
    formatted error strings; only the information that decides control flow
    is kept here. */
module Errors {

  datatype Error =
    | RequestFailed(attempts: nat)   // every attempt of the retrying transport failed
    | ZoneNotFound(domain: string)   // the zone lookup returned an empty list
}
