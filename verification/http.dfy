/** The HTTP-level values a test step handles, and the collaborators whose
    internals are outside the model (hashing, encoding, header validation). */
module Http {
  import opened Basics

  /** A Go `http.Header` restricted to one value per name. Names are stored in
      the canonical form `Header.Set` produces ("Content-Md5" for
      "Content-MD5"), and a later `Set` of a name replaces the earlier value. */
  type Header = map<string, string>

  /** The harness's request record: target bucket and object, the headers it
      adds itself, the declared length and the bytes sent as the body. */
  datatype Request = Request(
    bucketName: string,
    objectName: string,
    customHeader: Header,
    contentLength: int,
    contentBody: seq<byte>)

  /** Go's zero value `Request{}`. */
  const EmptyRequest: Request := Request("", "", map[], 0, [])

  /** A response body stream: reading it to the end yields `content`, then
      `readError` if the stream breaks off. */
  datatype Body = Body(content: seq<byte>, readError: Option<Error>)

  datatype Response = Response(statusCode: int, header: Header, body: Body)

  /** What executing a request yields: a response, or a transport error. */
  datatype Exec = Responded(response: Response) | TransportFailed(error: Error)

  /** One call of the transport, as a stub that answers a given request. */
  type Transport = Request -> Exec

  /** `http.StatusOK`. */
  const StatusOK: int := 200

  /** Code the model calls but does not define.
      - `md5`: the MD5 digest of RFC 1321;
      - `sha256`: the SHA-256 digest of FIPS 180-4;
      - `base64`: the standard base 64 encoding, section 4 of RFC 4648;
      - `hex`: the base 16 encoding, section 8 of RFC 4648;
      - `hashReadError`: the error, if any, that reading the payload while
        hashing it reports;
      - `appUserAgent`: the harness's fixed client identification;
      - `verifyStandardHeaders`: the verdict on the headers every response
        must carry. */
  datatype Collaborators = Collaborators(
    md5: seq<byte> -> seq<byte>,
    sha256: seq<byte> -> seq<byte>,
    base64: seq<byte> -> string,
    hex: seq<byte> -> string,
    hashReadError: seq<byte> -> Option<Error>,
    appUserAgent: string,
    verifyStandardHeaders: Header -> Option<Error>)
}
