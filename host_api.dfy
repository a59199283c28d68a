/** What the pages send to the host and how they name a user's domains; the transport
    (`fetch`, request URLs) is not modelled. */
module HostApi {

  /** The request a page action issues, reduced to the data that identifies it. */
  datatype Request =
    | LoadRequest(app: string, domain: string)
    | UnloadRequest(domain: string)
    | NoRequest

  /** The domain a name is hosted under for a user: `<name>.<userId>.user`. */
  function UserDomain(name: string, userId: string): string
  {
    name + "." + userId + ".user"
  }
}
