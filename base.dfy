/** Small value types shared by the other modules, and the Go standard-library
    calls the plugin relies on, taken as given functions rather than modelled. */
module Base {

  datatype Option<+T> = None | Some(value: T)

  datatype Result<+T, +E> = Ok(value: T) | Err(error: E)

  /** The two halves `net.SplitHostPort` returns on success. */
  datatype HostPort = HostPort(host: string, port: string)

  /** The standard-library functions used by the configuration code:
      - splitHostPort: `net.SplitHostPort`; None stands for a non-nil error;
      - parseIP: whether `net.ParseIP` returns a non-nil address;
      - parseDuration: `time.ParseDuration`, in nanoseconds; None stands for an error. */
  datatype GoLib = GoLib(
    splitHostPort: string -> Option<HostPort>,
    parseIP: string -> bool,
    parseDuration: string -> Option<int>)
}
