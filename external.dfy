/**
 * The outbound collaborators of the newer service (pkg/external): the
 * multipart writer that assembles an upload, and the client of the login
 * and content services. The HTTP round trip itself is a parameter, `Reply`:
 * what `Client.Do` answered.
 */
module External {
  import opened Wrappers
  import opened Utf8
  import opened Errors

  /** One part of a multipart/form-data body (section 4.2 of RFC 7578): form field, file name, content bytes. */
  datatype Part = Part(field: string, fileName: string, content: seq<byte>)

  /** What the client sends: the URL, the `Authorization` header and the form parts of the body. */
  datatype Request = Request(url: string, authorization: string, form: seq<Part>)

  /** `Client.Do`'s answer: a transport error, or a response with its status code. */
  datatype Reply = TransportError(message: string) | Status(code: nat)

  const OkCode: nat := 200

  /** `fmt.Sprint` of a non-negative integer. */
  function Decimal(n: nat): (r: string)
    ensures r != []
    ensures forall i | 0 <= i < |r| :: '0' <= r[i] <= '9'
  {
    var last := ["0123456789"[n % 10]];
    if n < 10 then last else Decimal(n / 10) + last
  }

  /** The value `Decimal` denotes, read back digit by digit. */
  function DigitsValue(s: string): nat
    requires forall i | 0 <= i < |s| :: '0' <= s[i] <= '9'
  {
    if s == [] then 0 else DigitsValue(s[..|s| - 1]) * 10 + (s[|s| - 1] as int - '0' as int)
  }

  /** Reading the decimal text back gives the number: distinct codes give distinct messages. */
  lemma {:induction false} DecimalValue(n: nat)
    ensures DigitsValue(Decimal(n)) == n
  {
    var d := Decimal(n);
    assert d[..|d| - 1] == if n < 10 then [] else Decimal(n / 10);
    if n >= 10 {
      DecimalValue(n / 10);
    }
  }

  /** The error a reply turns into: any status but 200 is an error, a transport error is kept verbatim. */
  function ReplyError(reply: Reply): (r: Option<Error>)
    ensures r.None? <==> reply == Status(OkCode)
    ensures reply.TransportError? ==> r == Some(Failure(reply.message))
    ensures reply.Status? && reply.code != OkCode ==>
      r == Some(Failure("non-200 status code received: " + Decimal(reply.code)))
  {
    match reply
    case TransportError(m) => Some(Failure(m))
    case Status(code) =>
      if code == OkCode then None
      else Some(Failure("non-200 status code received: " + Decimal(code)))
  }

  /** A teapot answer reads `non-200 status code received: 418`. */
  lemma TeapotReply()
    ensures ReplyError(Status(418)) == Some(Failure("non-200 status code received: 418"))
  {
    assert Decimal(4) == "4";
    assert Decimal(41) == "4" + "1";
    assert Decimal(418) == "41" + "8";
    assert "41" + "8" == "418";
    assert Decimal(418) == "418";
    assert ReplyError(Status(418)) == Some(Failure("non-200 status code received: " + Decimal(418)));
    assert "non-200 status code received: " + "418" == "non-200 status code received: 418";
  }

  /** The outcome of a POST to `baseUrl`: an unset base URL fails before any request is made. */
  function PostError(baseUrl: string, unsetMessage: string, reply: Reply): (r: Option<Error>)
    ensures baseUrl == "" ==> r == Some(Failure(unsetMessage))
    ensures baseUrl != "" ==> r == ReplyError(reply)
  {
    if baseUrl == "" then Some(Failure(unsetMessage)) else ReplyError(reply)
  }

  /** The requests a POST to `baseUrl + path` puts on the wire: none when the base URL is unset. */
  function Posted(baseUrl: string, path: string, authorization: string, form: seq<Part>): (r: seq<Request>)
    ensures baseUrl == "" <==> r == []
    ensures baseUrl != "" ==> r == [Request(baseUrl + path, authorization, form)]
  {
    if baseUrl == "" then [] else [Request(baseUrl + path, authorization, form)]
  }

  /** `mime/multipart.Writer` seen as the parts it has written so far. */
  class MultipartWriter {
    var parts: seq<Part>
    var closed: bool

    constructor ()
      ensures parts == [] && !closed
    {
      parts := [];
      closed := false;
    }

    /** `CreateFormFile`: start a new file part; later writes go to it. */
    method CreateFormFile(field: string, fileName: string)
      requires !closed
      modifies this
      ensures parts == old(parts) + [Part(field, fileName, [])] && !closed
    {
      parts := parts + [Part(field, fileName, [])];
    }

    /** Writing to the current part appends to its content. */
    method Write(data: seq<byte>)
      requires !closed && parts != []
      modifies this
      ensures |parts| == |old(parts)| && parts[..|parts| - 1] == old(parts)[..|parts| - 1]
      ensures var last := old(parts)[|parts| - 1]; parts[|parts| - 1] == last.(content := last.content + data)
      ensures !closed
    {
      var last := parts[|parts| - 1];
      parts := parts[..|parts| - 1] + [last.(content := last.content + data)];
    }

    /** `Close` writes the closing boundary; the parts are final. */
    method Close()
      modifies this
      ensures closed && parts == old(parts)
    {
      closed := true;
    }
  }

  /** `ExtAPI`: the service URLs, the bearer token of uploads, and the requests sent so far. */
  class ExtApi {
    const loginServiceUrl: string
    const contentServiceUrl: string
    var token: string
    var sent: seq<Request>

    constructor (loginServiceUrl: string, contentServiceUrl: string)
      ensures this.loginServiceUrl == loginServiceUrl && this.contentServiceUrl == contentServiceUrl
      ensures token == "" && sent == []
    {
      this.loginServiceUrl := loginServiceUrl;
      this.contentServiceUrl := contentServiceUrl;
      token := "";
      sent := [];
    }

    /** `SetToken`: the token later uploads carry. */
    method SetToken(token: string)
      modifies this
      ensures this.token == token && sent == old(sent)
    {
      this.token := token;
    }

    /** `ValidateToken`: POST `<login>/token` with the token as bearer; only a 200 validates it. */
    method ValidateToken(token: string, reply: Reply) returns (err: Option<Error>)
      modifies this
      ensures err == PostError(loginServiceUrl, "login service url cannot be empty", reply)
      ensures sent == old(sent) + Posted(loginServiceUrl, "/token", "Bearer " + token, [])
      ensures this.token == old(this.token)
    {
      if loginServiceUrl == "" {
        return Some(Failure("login service url cannot be empty"));
      }
      sent := sent + [Request(loginServiceUrl + "/token", "Bearer " + token, [])];
      err := ReplyError(reply);
    }

    /** `SendToContentService`: POST `<content>/upload` with the form, carrying the stored token as bearer. */
    method SendToContentService(form: seq<Part>, reply: Reply) returns (err: Option<Error>)
      modifies this
      ensures err == PostError(contentServiceUrl, "content service url cannot be empty", reply)
      ensures sent == old(sent) + Posted(contentServiceUrl, "/upload", "Bearer " + old(token), form)
      ensures token == old(token)
    {
      if contentServiceUrl == "" {
        return Some(Failure("content service url cannot be empty"));
      }
      sent := sent + [Request(contentServiceUrl + "/upload", "Bearer " + token, form)];
      err := ReplyError(reply);
    }
  }
}
