/** Construction of the PUT-object request (`newPutObjectReq`). */
module RequestBuilder {
  import opened Basics
  import opened Http

  const ContentMd5Key: string := "Content-Md5"
  const ContentSha256Key: string := "X-Amz-Content-Sha256"
  const UserAgentKey: string := "User-Agent"

  /** What `computeHash` reports for a payload it read completely. */
  datatype Sums = Sums(md5Sum: seq<byte>, sha256Sum: seq<byte>, contentLength: int)

  /** The assumed behaviour of `computeHash`, defined from the collaborators:
      a single pass over the payload yielding both digests and the number of
      bytes read, or the error that stopped the read. The payload stays
      available from its start afterwards. */
  function ComputeHash(env: Collaborators, data: seq<byte>): Result<Sums>
  {
    match env.hashReadError(data)
    case Some(e) => Err(e)
    case None => Ok(Sums(env.md5(data), env.sha256(data), |data|))
  }

  /** The request declares exactly what its own body determines: its length,
      the base 64 MD5 and hex SHA-256 digests of those very bytes, and the
      harness's client identification, and no other header. */
  predicate DescribesBody(env: Collaborators, req: Request) {
    && req.contentLength == |req.contentBody|
    && req.customHeader.Keys == {ContentMd5Key, ContentSha256Key, UserAgentKey}
    && req.customHeader[ContentMd5Key] == env.base64(env.md5(req.contentBody))
    && req.customHeader[ContentSha256Key] == env.hex(env.sha256(req.contentBody))
    && req.customHeader[UserAgentKey] == env.appUserAgent
  }

  /** `newPutObjectReq`: the request and, on a hashing failure, the error. */
  function NewPutObjectReq(env: Collaborators, bucketName: string, objectName: string, objectData: seq<byte>)
    : (r: (Request, Option<Error>))
    ensures r.1.Some? <==> env.hashReadError(objectData).Some?
    ensures r.1.Some? ==> r.0 == EmptyRequest && r.1 == env.hashReadError(objectData)
    ensures r.1.None? ==>
              && r.0.bucketName == bucketName
              && r.0.objectName == objectName
              && r.0.contentBody == objectData
              && DescribesBody(env, r.0)
  {
    match ComputeHash(env, objectData)
    case Err(e) => (EmptyRequest, Some(e))
    case Ok(sums) =>
      var header: Header := map[];
      var header := header[ContentMd5Key := env.base64(sums.md5Sum)];
      var header := header[ContentSha256Key := env.hex(sums.sha256Sum)];
      var header := header[UserAgentKey := env.appUserAgent];
      (Request(bucketName, objectName, header, sums.contentLength, objectData), None)
  }

  /** The declared length and the headers are functions of the body alone:
      two requests that both describe the same bytes declare the same thing. */
  lemma DescriptionDeterminedByBody(env: Collaborators, a: Request, b: Request)
    requires DescribesBody(env, a) && DescribesBody(env, b)
    requires a.contentBody == b.contentBody
    ensures a.contentLength == b.contentLength
    ensures a.customHeader == b.customHeader
  {
  }

  /** Building for the same payload with any bucket and object names yields the
      same declared length and the same headers. */
  lemma HeadersIndependentOfNames(env: Collaborators, bucket1: string, object1: string,
                                  bucket2: string, object2: string, data: seq<byte>)
    ensures NewPutObjectReq(env, bucket1, object1, data).0.customHeader
         == NewPutObjectReq(env, bucket2, object2, data).0.customHeader
    ensures NewPutObjectReq(env, bucket1, object1, data).0.contentLength
         == NewPutObjectReq(env, bucket2, object2, data).0.contentLength
  {
  }
}
