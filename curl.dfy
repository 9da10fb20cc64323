/**
 * The libcurl handle options the client sets, as map keys and values.
 * A handle is modelled by the map of options set on it; setting an option
 * twice keeps the later value.
 */
module Curl {

  /** The option names the client uses, and any other option passed through unchanged. */
  datatype CurlOpt =
    | SslCert | SslKey | KeyPasswd | CaInfo
    | SslVerifyPeer | SslVerifyHost | SslVersion
    | Timeout | ConnectTimeout | Verbose | FailOnError
    | Post | PostFieldSize | ReadFunction
    | HttpHeader | CustomRequest | Url
    | Other(code: int)

  /** Where a request body is streamed from. */
  datatype ContentSource = Buffer(payload: string) | File(path: string)

  datatype OptValue =
    | IntVal(n: int)
    | BoolVal(b: bool)
    | StrVal(s: string)
    | StrList(items: seq<string>)
    | Reader(source: ContentSource)

  /**
   * The options in effect on a handle after applying every client option
   * and then every request option: the request wins on a shared key, and
   * a key set in only one scope is kept.
   */
  function Merge(client: map<CurlOpt, OptValue>, request: map<CurlOpt, OptValue>): (m: map<CurlOpt, OptValue>)
    ensures forall k :: k in m <==> k in client || k in request
    ensures forall k :: k in request ==> m[k] == request[k]
    ensures forall k :: k in client && k !in request ==> m[k] == client[k]
  {
    client + request
  }
}
