/**
 * The Opal REST client's request side: a client holding the server-wide
 * transport options and default headers, a request holding its own options,
 * headers, verb and resource path, and the step that merges the two into the
 * options of one curl transfer.
 */
module Opal {
  import opened Wrappers
  import opened Curl
  import opened Capture
  import Base64

  /** The failures the client reports before any transfer starts. */
  datatype Error =
    | InvalidMethod(verb: string)
    | ResourceMissing
    | FileNotFound(path: string)
    | MethodNotAString

  /** The text of the exceptions the client raises itself; `None` for those raised by the runtime. */
  function Message(e: Error): (text: Option<string>)
    ensures e.InvalidMethod? ==> text == Some("Not a valid method: " + e.verb)
    ensures e.ResourceMissing? ==> text == Some("Resource is missing")
    ensures e.FileNotFound? || e.MethodNotAString? ==> text.None?
  {
    match e
    case InvalidMethod(m) => Some("Not a valid method: " + m)
    case ResourceMissing => Some("Resource is missing")
    case _ => None
  }

  const AllowedMethods: seq<string> := ["GET", "DELETE", "PUT", "POST", "OPTIONS"]

  /** Python truthiness of an optional string argument: present and non-empty. */
  predicate Truthy(s: Option<string>) {
    s.Some? && s.value != ""
  }

  /**
   * The verb a request keeps for a `method(m)` call: `GET` for an absent or
   * empty argument, one of the five verbs unchanged (case-sensitive), and an
   * `InvalidMethod` error for anything else.
   */
  function MethodChoice(m: Option<string>): (r: Result<string, Error>)
    ensures r.Success? ==> r.value in AllowedMethods
    ensures !Truthy(m) ==> r == Success("GET")
    ensures Truthy(m) && m.value in AllowedMethods ==> r == Success(m.value)
    ensures Truthy(m) && m.value !in AllowedMethods ==> r == Failure(InvalidMethod(m.value))
  {
    if !Truthy(m) then Success("GET")
    else if m.value in AllowedMethods then Success(m.value)
    else Failure(InvalidMethod(m.value))
  }

  /** Choosing again from a verb already chosen keeps it. */
  lemma MethodChoiceStable(m: Option<string>)
    requires MethodChoice(m).Success?
    ensures MethodChoice(Some(MethodChoice(m).value)) == MethodChoice(m)
  {
  }

  /** Python 2 `str` arguments are byte strings: every character is below 256. */
  predicate IsByteString(s: string) {
    forall i :: 0 <= i < |s| ==> s[i] as int < 256
  }

  function ToBytes(s: string): (bs: seq<Base64.Byte>)
    requires IsByteString(s)
    ensures |bs| == |s| && forall i :: 0 <= i < |s| ==> bs[i] == s[i] as int
  {
    seq(|s|, i requires 0 <= i < |s| => s[i] as int)
  }

  lemma ToBytesConcat(a: string, b: string)
    requires IsByteString(a) && IsByteString(b)
    ensures IsByteString(a + b) && ToBytes(a + b) == ToBytes(a) + ToBytes(b)
  {
  }

  /** The `Authorization` value for a user and password. */
  function AuthorizationValue(user: string, password: string): string
    requires IsByteString(user) && IsByteString(password)
  {
    "X-Opal-Auth " + Base64.Encode(ToBytes(user + ":" + password))
  }

  /** The server can recover exactly `user`, a colon and `password` from the `Authorization` value. */
  lemma AuthorizationDecodes(user: string, password: string)
    requires IsByteString(user) && IsByteString(password)
    ensures var v := AuthorizationValue(user, password);
      |v| >= 12 && v[..12] == "X-Opal-Auth " &&
      Base64.Decode(v[12..]) == Some(ToBytes(user) + [':' as int] + ToBytes(password))
  {
    var bs := ToBytes(user + ":" + password);
    assert AuthorizationValue(user, password)[12..] == Base64.Encode(bs);
    Base64.DecodeEncode(bs);
    ToBytesConcat(user, ":");
    ToBytesConcat(user + ":", password);
    assert ToBytes(":") == [':' as int];
  }

  /** One serialised header line. */
  function HeaderLine(name: string, value: string): string {
    name + ": " + value
  }

  /** `ks` lists every key of `m`, and as it is no longer than `m`, each key exactly once. */
  ghost predicate Enumerates(ks: seq<string>, m: map<string, string>) {
    |ks| == |m| && forall k :: k in m <==> k in ks
  }

  /** The header lines of `m` taken in the order of `ks`. */
  function Lines(ks: seq<string>, m: map<string, string>): (lines: seq<string>)
    requires forall k :: k in ks ==> k in m
    ensures |lines| == |ks|
    ensures forall i :: 0 <= i < |ks| ==> lines[i] == HeaderLine(ks[i], m[ks[i]])
  {
    seq(|ks|, i requires 0 <= i < |ks| => HeaderLine(ks[i], m[ks[i]]))
  }

  /** `lines` holds one line per entry of `m`, in some iteration order of the map. */
  ghost predicate SerializationOf(lines: seq<string>, m: map<string, string>) {
    exists ks :: Enumerates(ks, m) && lines == Lines(ks, m)
  }

  /** A serialisation has one line per entry. */
  lemma SerializationLength(lines: seq<string>, m: map<string, string>)
    requires SerializationOf(lines, m)
    ensures |lines| == |m|
  {
    var ks :| Enumerates(ks, m) && lines == Lines(ks, m);
  }

  /** Every entry of the map has its line in a serialisation. */
  lemma SerializationCovers(lines: seq<string>, m: map<string, string>, k: string)
    requires SerializationOf(lines, m) && k in m
    ensures HeaderLine(k, m[k]) in lines
  {
    var ks :| Enumerates(ks, m) && lines == Lines(ks, m);
    var i :| 0 <= i < |ks| && ks[i] == k;
    assert lines[i] == HeaderLine(k, m[k]);
  }

  /** Every line of a serialisation is the line of some entry. */
  lemma SerializationSound(lines: seq<string>, m: map<string, string>, i: nat)
    requires SerializationOf(lines, m) && i < |lines|
    ensures exists k :: k in m && lines[i] == HeaderLine(k, m[k])
  {
    var ks :| Enumerates(ks, m) && lines == Lines(ks, m);
    assert ks[i] in m && lines[i] == HeaderLine(ks[i], m[ks[i]]);
  }

  /** The header list of a transfer: all client lines, then all request lines. */
  ghost predicate IsHeaderList(hlist: seq<string>, client: map<string, string>, request: map<string, string>) {
    |client| <= |hlist| &&
    SerializationOf(hlist[..|client|], client) &&
    SerializationOf(hlist[|client|..], request)
  }

  /**
   * The header list has a line per entry of each scope, so a name set in
   * both scopes is sent twice: the client's line first, the request's after it.
   */
  lemma HeaderListShape(hlist: seq<string>, client: map<string, string>, request: map<string, string>, name: string)
    requires IsHeaderList(hlist, client, request)
    ensures |hlist| == |client| + |request|
    ensures name in client ==> HeaderLine(name, client[name]) in hlist[..|client|]
    ensures name in request ==> HeaderLine(name, request[name]) in hlist[|client|..]
    ensures name in client && name in request ==>
      exists i, j :: 0 <= i < |client| <= j < |hlist| &&
        hlist[i] == HeaderLine(name, client[name]) && hlist[j] == HeaderLine(name, request[name])
  {
    var front, back := hlist[..|client|], hlist[|client|..];
    SerializationLength(back, request);
    assert hlist == front + back;
    if name in client {
      SerializationCovers(front, client, name);
    }
    if name in request {
      SerializationCovers(back, request, name);
    }
    if name in client && name in request {
      var i :| 0 <= i < |front| && front[i] == HeaderLine(name, client[name]);
      var j :| 0 <= j < |back| && back[j] == HeaderLine(name, request[name]);
      assert hlist[|client| + j] == back[j];
    }
  }

  /** Appends one `name: value` line per header entry, visiting the entries in the map's iteration order. */
  method SerializeHeaders(m: map<string, string>) returns (lines: seq<string>)
    ensures SerializationOf(lines, m)
  {
    lines := [];
    ghost var ks: seq<string> := [];
    var rest := m.Keys;
    while rest != {}
      invariant rest <= m.Keys
      invariant forall k :: k in ks <==> k in m && k !in rest
      invariant |ks| + |rest| == |m.Keys|
      invariant lines == Lines(ks, m)
      decreases rest
    {
      var k :| k in rest;
      lines := lines + [HeaderLine(k, m[k])];
      ks := ks + [k];
      rest := rest - {k};
    }
    assert |m.Keys| == |m|;
    assert Enumerates(ks, m);
  }

  /** `setopt` of every client option, then of every request option, on a fresh handle. */
  method ApplyOptions(client: map<CurlOpt, OptValue>, request: map<CurlOpt, OptValue>) returns (opts: map<CurlOpt, OptValue>)
    ensures opts == Merge(client, request)
  {
    opts := map[];
    var rest := client.Keys;
    while rest != {}
      invariant rest <= client.Keys
      invariant opts == client - rest
      decreases rest
    {
      var o :| o in rest;
      opts := opts[o := client[o]];
      rest := rest - {o};
    }
    rest := request.Keys;
    while rest != {}
      invariant rest <= request.Keys
      invariant opts == client + (request - rest)
      decreases rest
    {
      var o :| o in rest;
      opts := opts[o := request[o]];
      rest := rest - {o};
    }
    assert request - {} == request;
  }

  /** The URL of a resource: the base URL, the fixed `/ws` segment, then the resource path. */
  function WsUrl(baseUrl: string, resource: string): (u: string)
    ensures |u| == |baseUrl| + 3 + |resource|
    ensures u[..|baseUrl|] == baseUrl && u[|baseUrl|..|baseUrl| + 3] == "/ws" && u[|baseUrl| + 3..] == resource
  {
    baseUrl + "/ws" + resource
  }

  /**
   * The `CUSTOMREQUEST` step as the source has it when the verb was never
   * chosen: the request's `method` attribute is then still the bound method,
   * which is truthy, and curl refuses it as an option value.
   */
  function VerbAsWritten(m: Option<string>): (r: Result<Option<string>, Error>)
    ensures m.None? ==> r == Failure(MethodNotAString)
    ensures m.Some? ==> r == Success(if m.value != "" then m else None)
  {
    match m
    case None => Failure(MethodNotAString)
    case Some(v) => Success(if v != "" then m else None)
  }

  /** A request that never chose a verb cannot be sent as written, though a resource was given. */
  lemma UnsetMethodRejectedAsWritten()
    ensures VerbAsWritten(None).Failure?
    ensures Verb(None) == None
  {
  }

  /** The corrected `CUSTOMREQUEST` step: set only when a non-empty verb was chosen, else curl's default verb. */
  function Verb(m: Option<string>): (r: Option<string>)
    ensures r.Some? <==> Truthy(m)
    ensures r.Some? ==> r == m
  {
    if Truthy(m) then m else None
  }

  /** The options of a transfer: the merged scopes, then the header list, the verb and the URL. */
  function FinalOptions(merged: map<CurlOpt, OptValue>, hlist: seq<string>, verb: Option<string>, url: string): (opts: map<CurlOpt, OptValue>)
    ensures opts.Keys == merged.Keys + {HttpHeader, Url} + (if verb.Some? then {CustomRequest} else {})
    ensures opts[HttpHeader] == StrList(hlist) && opts[Url] == StrVal(url)
    ensures verb.Some? ==> opts[CustomRequest] == StrVal(verb.value)
    ensures verb.None? && CustomRequest in merged ==> opts[CustomRequest] == merged[CustomRequest]
    ensures forall k :: k in merged && k !in {HttpHeader, CustomRequest, Url} ==> opts[k] == merged[k]
  {
    var withHeaders := merged[HttpHeader := StrList(hlist)];
    var withVerb := if verb.Some? then withHeaders[CustomRequest := StrVal(verb.value)] else withHeaders;
    withVerb[Url := StrVal(url)]
  }

  /** The server scope: base URL, transport options and default headers shared by its requests. */
  class OpalClient {
    const baseUrl: string
    var curlOptions: map<CurlOpt, OptValue>
    var headers: map<string, string>

    constructor (baseUrl: string)
      ensures this.baseUrl == baseUrl && curlOptions == map[] && headers == map[]
    {
      this.baseUrl := baseUrl;
      curlOptions := map[];
      headers := map[];
    }

    /** Basic-style authentication: only the `Authorization` header changes. */
    method Credentials(user: string, password: string)
      requires IsByteString(user) && IsByteString(password)
      modifies this`headers
      ensures headers == old(headers)["Authorization" := AuthorizationValue(user, password)]
    {
      Header("Authorization", AuthorizationValue(user, password));
    }

    /**
     * Client-certificate authentication: certificate and key always, pass
     * phrase and CA bundle only when given non-empty; the `Authorization`
     * header goes and every other header stays.
     */
    method Keys(certFile: string, keyFile: string, keyPwd: Option<string>, caCerts: Option<string>)
      modifies this`curlOptions, this`headers
      ensures Truthy(keyPwd) && Truthy(caCerts) ==>
        curlOptions == old(curlOptions)[SslCert := StrVal(certFile)][SslKey := StrVal(keyFile)]
          [KeyPasswd := StrVal(keyPwd.value)][CaInfo := StrVal(caCerts.value)]
      ensures Truthy(keyPwd) && !Truthy(caCerts) ==>
        curlOptions == old(curlOptions)[SslCert := StrVal(certFile)][SslKey := StrVal(keyFile)]
          [KeyPasswd := StrVal(keyPwd.value)]
      ensures !Truthy(keyPwd) && Truthy(caCerts) ==>
        curlOptions == old(curlOptions)[SslCert := StrVal(certFile)][SslKey := StrVal(keyFile)]
          [CaInfo := StrVal(caCerts.value)]
      ensures !Truthy(keyPwd) && !Truthy(caCerts) ==>
        curlOptions == old(curlOptions)[SslCert := StrVal(certFile)][SslKey := StrVal(keyFile)]
      ensures headers == old(headers) - {"Authorization"}
    {
      CurlOption(SslCert, StrVal(certFile));
      CurlOption(SslKey, StrVal(keyFile));
      if Truthy(keyPwd) {
        CurlOption(KeyPasswd, StrVal(keyPwd.value));
      }
      if Truthy(caCerts) {
        CurlOption(CaInfo, StrVal(caCerts.value));
      }
      headers := headers - {"Authorization"};
    }

    method VerifyPeer(verify: int)
      modifies this`curlOptions
      ensures curlOptions == old(curlOptions)[SslVerifyPeer := IntVal(verify)]
    {
      CurlOption(SslVerifyPeer, IntVal(verify));
    }

    method VerifyHost(verify: int)
      modifies this`curlOptions
      ensures curlOptions == old(curlOptions)[SslVerifyHost := IntVal(verify)]
    {
      CurlOption(SslVerifyHost, IntVal(verify));
    }

    method SslVersion(version: int)
      modifies this`curlOptions
      ensures curlOptions == old(curlOptions)[Curl.SslVersion := IntVal(version)]
    {
      CurlOption(Curl.SslVersion, IntVal(version));
    }

    method CurlOption(opt: CurlOpt, value: OptValue)
      modifies this`curlOptions
      ensures curlOptions == old(curlOptions)[opt := value]
    {
      curlOptions := curlOptions[opt := value];
    }

    method Header(key: string, value: string)
      modifies this`headers
      ensures headers == old(headers)[key := value]
    {
      headers := headers[key := value];
    }

    /** A fresh request on this server. */
    method Request() returns (r: OpalRequest)
      ensures fresh(r) && r.client == this && r.Initial()
    {
      r := new OpalRequest(this);
    }
  }

  /** The call scope: its own options and headers, the verb, the resource path and the verbose flag. */
  class OpalRequest {
    const client: OpalClient
    var curlOptions: map<CurlOpt, OptValue>
    var headers: map<string, string>
    var verbose: bool
    /** The verb chosen with `Method`, if any. */
    var httpMethod: Option<string>
    /** The resource path given with `Resource`, if any. */
    var resource: Option<string>

    /** The state of a request just created: no options, JSON accepted, nothing else chosen. */
    ghost predicate Initial()
      reads this
    {
      curlOptions == map[] && headers == map["Accept" := "application/json"] &&
      !verbose && httpMethod == None && resource == None
    }

    constructor (client: OpalClient)
      ensures this.client == client && Initial()
    {
      this.client := client;
      curlOptions := map[];
      headers := map["Accept" := "application/json"];
      verbose := false;
      httpMethod := None;
      resource := None;
    }

    method CurlOption(opt: CurlOpt, value: OptValue)
      modifies this`curlOptions
      ensures curlOptions == old(curlOptions)[opt := value]
    {
      curlOptions := curlOptions[opt := value];
    }

    method Timeout(value: int)
      modifies this`curlOptions
      ensures curlOptions == old(curlOptions)[Curl.Timeout := IntVal(value)]
    {
      CurlOption(Curl.Timeout, IntVal(value));
    }

    method ConnectionTimeout(value: int)
      modifies this`curlOptions
      ensures curlOptions == old(curlOptions)[ConnectTimeout := IntVal(value)]
    {
      CurlOption(ConnectTimeout, IntVal(value));
    }

    method Verbose()
      modifies this`verbose, this`curlOptions
      ensures verbose && curlOptions == old(curlOptions)[Curl.Verbose := BoolVal(true)]
    {
      verbose := true;
      CurlOption(Curl.Verbose, BoolVal(true));
    }

    method FailOnError()
      modifies this`curlOptions
      ensures curlOptions == old(curlOptions)[Curl.FailOnError := BoolVal(true)]
    {
      CurlOption(Curl.FailOnError, BoolVal(true));
    }

    method Header(key: string, value: string)
      modifies this`headers
      ensures headers == old(headers)[key := value]
    {
      headers := headers[key := value];
    }

    method Accept(value: string)
      modifies this`headers
      ensures headers == old(headers)["Accept" := value]
    {
      Header("Accept", value);
    }

    method ContentType(value: string)
      modifies this`headers
      ensures headers == old(headers)["Content-Type" := value]
    {
      Header("Content-Type", value);
    }

    method AcceptJson()
      modifies this`headers
      ensures headers == old(headers)["Accept" := "application/json"]
    {
      Accept("application/json");
    }

    method ContentTypeJson()
      modifies this`headers
      ensures headers == old(headers)["Content-Type" := "application/json"]
    {
      ContentType("application/json");
    }

    /** `method(m)`: keeps the chosen verb, or fails and keeps nothing. */
    method Method(m: Option<string>) returns (outcome: Outcome<Error>)
      modifies this`httpMethod
      ensures MethodChoice(m).Success? ==> outcome.Pass? && httpMethod == Some(MethodChoice(m).value)
      ensures MethodChoice(m).Failure? ==> outcome == Fail(MethodChoice(m).error) && httpMethod == old(httpMethod)
    {
      if !Truthy(m) {
        httpMethod := Some("GET");
      } else if m.value in AllowedMethods {
        httpMethod := m;
      } else {
        return Fail(InvalidMethod(m.value));
      }
      outcome := Pass;
    }

    method Get()
      modifies this`httpMethod
      ensures httpMethod == Some("GET")
    {
      var _ := Method(Some("GET"));
    }

    method Put()
      modifies this`httpMethod
      ensures httpMethod == Some("PUT")
    {
      var _ := Method(Some("PUT"));
    }

    method Post()
      modifies this`httpMethod
      ensures httpMethod == Some("POST")
    {
      var _ := Method(Some("POST"));
    }

    method Delete()
      modifies this`httpMethod
      ensures httpMethod == Some("DELETE")
    {
      var _ := Method(Some("DELETE"));
    }

    method Options()
      modifies this`httpMethod
      ensures httpMethod == Some("OPTIONS")
    {
      var _ := Method(Some("OPTIONS"));
    }

    method Resource(ws: string)
      modifies this`resource
      ensures resource == Some(ws)
    {
      resource := Some(ws);
    }

    /** An in-memory body: a POST of exactly its length, streamed from the buffer; the verb is left as chosen. */
    method Content(content: string)
      modifies this`curlOptions
      ensures curlOptions == old(curlOptions)[Curl.Post := IntVal(1)][PostFieldSize := IntVal(|content|)]
        [ReadFunction := Reader(Buffer(content))]
    {
      CurlOption(Curl.Post, IntVal(1));
      CurlOption(PostFieldSize, IntVal(|content|));
      CurlOption(ReadFunction, Reader(Buffer(content)));
    }

    /**
     * A file body of the given size (`None` when the file cannot be found).
     * The POST flag is recorded before the size is looked up, so it stays
     * set when the lookup fails.
     */
    method ContentFile(filename: string, size: Option<nat>) returns (outcome: Outcome<Error>)
      modifies this`curlOptions
      ensures size.None? ==>
        outcome == Fail(FileNotFound(filename)) && curlOptions == old(curlOptions)[Curl.Post := IntVal(1)]
      ensures size.Some? ==>
        outcome.Pass? &&
        curlOptions == old(curlOptions)[Curl.Post := IntVal(1)][PostFieldSize := IntVal(size.value)]
          [ReadFunction := Reader(File(filename))]
    {
      CurlOption(Curl.Post, IntVal(1));
      if size.None? {
        return Fail(FileNotFound(filename));
      }
      CurlOption(PostFieldSize, IntVal(size.value));
      CurlOption(ReadFunction, Reader(File(filename)));
      outcome := Pass;
    }

    /** The header list sent with the transfer: client headers first, no de-duplication. */
    method HeaderList() returns (hlist: seq<string>)
      ensures IsHeaderList(hlist, client.headers, headers)
    {
      var front := SerializeHeaders(client.headers);
      var back := SerializeHeaders(headers);
      SerializationLength(front, client.headers);
      hlist := front + back;
      assert hlist[..|client.headers|] == front && hlist[|client.headers|..] == back;
    }

    /**
     * The options of the transfer: every client option, then every request
     * option over it, then the header list, the verb and the URL; or
     * `ResourceMissing` when no non-empty resource path was given.
     */
    method BuildRequest() returns (r: Result<map<CurlOpt, OptValue>, Error>)
      ensures r.Failure? <==> !Truthy(resource)
      ensures r.Failure? ==> r.error == ResourceMissing
      ensures r.Success? ==>
        HttpHeader in r.value && r.value[HttpHeader].StrList? &&
        IsHeaderList(r.value[HttpHeader].items, client.headers, headers) &&
        r.value == FinalOptions(Merge(client.curlOptions, curlOptions), r.value[HttpHeader].items,
                                Verb(httpMethod), WsUrl(client.baseUrl, resource.value))
    {
      var opts := ApplyOptions(client.curlOptions, curlOptions);
      ghost var merged := opts;
      var hlist := HeaderList();
      opts := opts[HttpHeader := StrList(hlist)];
      var verb := Verb(httpMethod);
      if verb.Some? {
        opts := opts[CustomRequest := StrVal(verb.value)];
      }
      if !Truthy(resource) {
        return Failure(ResourceMissing);
      }
      opts := opts[Url := StrVal(WsUrl(client.baseUrl, resource.value))];
      assert opts == FinalOptions(merged, hlist, verb, WsUrl(client.baseUrl, resource.value));
      assert opts[HttpHeader] == StrList(hlist);
      r := Success(opts);
    }

    /**
     * One call: build the transfer, then capture what the server returned,
     * given here as the status code, the raw header lines and the body chunks
     * in the order curl delivers them. A request that cannot be built fails
     * and captures nothing.
     */
    method Send(code: int, headerLines: seq<string>, bodyChunks: seq<string>) returns (r: Result<OpalResponse, Error>)
      ensures r.Failure? <==> !Truthy(resource)
      ensures r.Failure? ==> r.error == ResourceMissing
      ensures r.Success? ==>
        fresh(r.value) && r.value.code == code &&
        r.value.headers == Collected(headerLines) && r.value.content == Text.Concat(bodyChunks)
    {
      var built := BuildRequest();
      if built.Failure? {
        return Failure(built.error);
      }
      var headers := CaptureHeaders(headerLines);
      var contents := CaptureBody(bodyChunks);
      var response := new OpalResponse(code, headers, contents);
      r := Success(response);
    }
  }
}
