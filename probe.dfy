/** What one HTTP probe yields (the dictionary built by `HttpClient.get` in
    http_client.py). The request itself is not modelled: a probe is a
    function from a request target to an optional result, `None` standing for
    any transport failure. */
module Probe {
  import opened Wrappers

  datatype ProbeResult = ProbeResult(
    url: string,                   // the request target
    status: int,                   // the HTTP status code
    length: nat,                   // the body length in bytes
    headers: map<string, string>,
    elapsedMs: real,               // wall-clock duration of the request
    location: Option<string>)      // the Location header, if any

  /** An HTTP client's `get`: `None` when the request failed in transport. */
  type Prober = string -> Option<ProbeResult>
}
