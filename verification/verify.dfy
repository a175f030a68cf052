/** Verification of the PUT-object response (`putObjectVerify` and its three
    checks), with the error messages the checks produce. */
module ResponseVerifier {
  import opened Basics
  import opened Decimal
  import opened Http

  const StatusMessagePrefix: string := "Unexpected Response Status Code: wanted "
  const StatusMessageInfix: string := ", got "
  const BodyMessagePrefix: string := "Unexpected Body Recieved: expected empty body but recieved: "

  /** The text of the error reporting a status code other than the expected
      one, each code spelled as `%v` spells an `int`. */
  function StatusMessage(wanted: int, got: int): string {
    StatusMessagePrefix + IntToString(wanted) + StatusMessageInfix + IntToString(got)
  }

  /** The error reporting a status code other than the expected one: it
      starts with the fixed prefix and both codes can be read back from it. */
  function StatusError(wanted: int, got: int): (e: Error)
    ensures StatusMessagePrefix <= e.message
    ensures ParseStatusError(e) == Some((wanted, got))
  {
    StatusErrorRoundTrip(wanted, got);
    Error(StatusMessage(wanted, got))
  }

  /** The index of the first `c` in `s`, if there is one. */
  function IndexOf(s: string, c: char): (r: Option<nat>)
    ensures r.Some? ==> r.value < |s| && s[r.value] == c
    ensures r.Some? ==> forall i :: 0 <= i < r.value ==> s[i] != c
    ensures r.None? ==> forall i :: 0 <= i < |s| ==> s[i] != c
  {
    if |s| == 0 then None
    else if s[0] == c then Some(0)
    else
      match IndexOf(s[1..], c)
      case Some(k) => Some(k + 1)
      case None => None
  }

  /** The first `c` in `w + t` is the first character of `t` when `w` has none. */
  lemma IndexOfAfter(w: string, t: string, c: char)
    requires forall i :: 0 <= i < |w| ==> w[i] != c
    requires 0 < |t| && t[0] == c
    ensures IndexOf(w + t, c) == Some(|w|)
  {
    var s := w + t;
    assert s[|w|] == c;
    forall i | 0 <= i < |w|
      ensures s[i] != c
    {
      assert s[i] == w[i];
    }
  }

  /** Reads the wanted and the received status code back out of an error
      message, if it has the shape of a status error. */
  function ParseStatusError(e: Error): Option<(int, int)> {
    var m := e.message;
    if |m| < |StatusMessagePrefix| || m[..|StatusMessagePrefix|] != StatusMessagePrefix then None
    else
      var rest := m[|StatusMessagePrefix|..];
      match IndexOf(rest, ',')
      case None => None
      case Some(k) => ParseCodes(rest[..k], rest[k..])
  }

  /** The two codes of a status error, from the text of the wanted code and
      the text after it. */
  function ParseCodes(wanted: string, tail: string): Option<(int, int)> {
    if |tail| < |StatusMessageInfix| || tail[..|StatusMessageInfix|] != StatusMessageInfix then None
    else
      match (ParseInt(wanted), ParseInt(tail[|StatusMessageInfix|..]))
      case (Some(w), Some(g)) => Some((w, g))
      case _ => None
  }

  /** The text after the status-message prefix reads back as both codes. */
  lemma ParseCodesRoundTrip(wanted: int, got: int)
    ensures ParseCodes(IntToString(wanted), StatusMessageInfix + IntToString(got)) == Some((wanted, got))
  {
    var tail := StatusMessageInfix + IntToString(got);
    assert tail[..|StatusMessageInfix|] == StatusMessageInfix;
    assert tail[|StatusMessageInfix|..] == IntToString(got);
    IntRoundTrip(wanted);
    IntRoundTrip(got);
  }

  /** A status error carries both codes, recoverably. */
  lemma StatusErrorRoundTrip(wanted: int, got: int)
    ensures StatusMessagePrefix <= StatusMessage(wanted, got)
    ensures ParseStatusError(Error(StatusMessage(wanted, got))) == Some((wanted, got))
  {
    var w := IntToString(wanted);
    var tail := StatusMessageInfix + IntToString(got);
    var rest := w + tail;
    var m := StatusMessage(wanted, got);
    assert m == StatusMessagePrefix + rest;
    assert m[..|StatusMessagePrefix|] == StatusMessagePrefix;
    assert m[|StatusMessagePrefix|..] == rest;
    IndexOfAfter(w, tail, ',');
    assert rest[..|w|] == w;
    assert rest[|w|..] == tail;
    ParseCodesRoundTrip(wanted, got);
  }

  /** The message for a 403 where 200 was expected, spelled out. */
  lemma StatusErrorForbidden()
    ensures StatusError(200, 403) == Error("Unexpected Response Status Code: wanted 200, got 403")
  {
    assert StatusMessage(200, 403) == "Unexpected Response Status Code: wanted 200, got 403" by {
      assert NatToString(2) == "2";
      assert NatToString(20) == "20";
      assert NatToString(200) == "200";
      assert NatToString(4) == "4";
      assert NatToString(40) == "40";
      assert NatToString(403) == "403";
    }
  }

  /** Go's `string(b)`: one character per byte, with the byte's value. */
  function BytesToString(b: seq<byte>): (s: string)
    ensures StringToBytes(s) == Some(b)
  {
    var s := seq(|b|, i requires 0 <= i < |b| => b[i] as int as char);
    assert seq(|s|, i requires 0 <= i < |s| => s[i] as int as byte) == b;
    s
  }

  /** The bytes a string of byte-valued characters stands for. */
  function StringToBytes(s: string): Option<seq<byte>> {
    if forall i :: 0 <= i < |s| ==> s[i] as int < 256 then
      Some(seq(|s|, i requires 0 <= i < |s| => s[i] as int as byte))
    else None
  }

  /** The error reporting a body that should have been empty: it starts with
      the fixed prefix and the received bytes can be read back from it. */
  function BodyError(received: seq<byte>): (e: Error)
    ensures BodyMessagePrefix <= e.message
    ensures ParseBodyError(e) == Some(received)
  {
    BodyErrorRoundTrip(received);
    Error(BodyMessagePrefix + BytesToString(received))
  }

  /** Reads the received body back out of an error message, if it has the
      shape of a body error. */
  function ParseBodyError(e: Error): Option<seq<byte>> {
    var m := e.message;
    if |m| < |BodyMessagePrefix| || m[..|BodyMessagePrefix|] != BodyMessagePrefix then None
    else StringToBytes(m[|BodyMessagePrefix|..])
  }

  /** A body error carries the received content, recoverably. */
  lemma BodyErrorRoundTrip(received: seq<byte>)
    ensures ParseBodyError(Error(BodyMessagePrefix + BytesToString(received))) == Some(received)
  {
    var m := BodyMessagePrefix + BytesToString(received);
    assert m[..|BodyMessagePrefix|] == BodyMessagePrefix;
    assert m[|BodyMessagePrefix|..] == BytesToString(received);
  }

  /** `verifyHeaderPutObject`: the standard-header validator's verdict,
      returned as it is. */
  function VerifyHeaderPutObject(env: Collaborators, header: Header): (e: Option<Error>)
    ensures e == env.verifyStandardHeaders(header)
  {
    match env.verifyStandardHeaders(header)
    case Some(err) => Some(err)
    case None => None
  }

  /** `verifyStatusPutObject`: the codes must be equal; a mismatch is reported
      with both of them. */
  function VerifyStatusPutObject(respStatusCode: int, expectedStatusCode: int): (e: Option<Error>)
    ensures e.None? <==> respStatusCode == expectedStatusCode
    ensures e.Some? ==> ParseStatusError(e.value) == Some((expectedStatusCode, respStatusCode))
  {
    if respStatusCode != expectedStatusCode then
      Some(StatusError(expectedStatusCode, respStatusCode))
    else None
  }

  /** `verifyBodyPutObject`: the whole body is read (`ioutil.ReadAll` yields
      `content`, then `readError`); a read error is returned
      unchanged, and any content at all is reported back in the error. */
  function VerifyBodyPutObject(body: Body): (e: Option<Error>)
    ensures e.None? <==> body.readError.None? && |body.content| == 0
    ensures body.readError.Some? ==> e == body.readError
    ensures body.readError.None? && 0 < |body.content| ==>
              e.Some? && ParseBodyError(e.value) == Some(body.content)
  {
    if body.readError.Some? then body.readError
    else if body.content != [] then
      Some(BodyError(body.content))
    else None
  }

  /** A response passing every check for a PUT object. */
  predicate Accepted(env: Collaborators, res: Response, expectedStatusCode: int) {
    && env.verifyStandardHeaders(res.header).None?
    && res.statusCode == expectedStatusCode
    && res.body.readError.None?
    && |res.body.content| == 0
  }

  /** `putObjectVerify`: header check, then status check, then body check;
      the first failure is the result. */
  function PutObjectVerify(env: Collaborators, res: Response, expectedStatusCode: int): (e: Option<Error>)
    ensures e.None? <==> Accepted(env, res, expectedStatusCode)
    ensures env.verifyStandardHeaders(res.header).Some? ==> e == env.verifyStandardHeaders(res.header)
    ensures env.verifyStandardHeaders(res.header).None? && res.statusCode != expectedStatusCode ==>
              e == Some(StatusError(expectedStatusCode, res.statusCode))
    ensures env.verifyStandardHeaders(res.header).None? && res.statusCode == expectedStatusCode ==>
              e == VerifyBodyPutObject(res.body)
  {
    var headerErr := VerifyHeaderPutObject(env, res.header);
    if headerErr.Some? then headerErr
    else
      var statusErr := VerifyStatusPutObject(res.statusCode, expectedStatusCode);
      if statusErr.Some? then statusErr
      else
        var bodyErr := VerifyBodyPutObject(res.body);
        if bodyErr.Some? then bodyErr
        else None
  }

  /** When the header or the status check fails, the body is never looked at:
      any other body gives the same verdict. */
  lemma BodyIgnoredAfterEarlyFailure(env: Collaborators, res: Response, other: Body, expectedStatusCode: int)
    requires env.verifyStandardHeaders(res.header).Some? || res.statusCode != expectedStatusCode
    ensures PutObjectVerify(env, res, expectedStatusCode)
         == PutObjectVerify(env, res.(body := other), expectedStatusCode)
  {
  }

  /** One check of a response; `None` means it passed. */
  type Check = Response -> Option<Error>

  /** Runs the checks in order and stops at the first that fails. */
  function FirstFailure(checks: seq<Check>, res: Response): (e: Option<Error>)
    ensures e.None? <==> forall i :: 0 <= i < |checks| ==> checks[i](res).None?
    ensures e.Some? ==>
              exists k :: 0 <= k < |checks| && checks[k](res) == e
                          && forall i :: 0 <= i < k ==> checks[i](res).None?
    decreases |checks|
  {
    if |checks| == 0 then None
    else if checks[0](res).Some? then checks[0](res)
    else
      var e := FirstFailure(checks[1..], res);
      if e.Some? then
        var k :| 0 <= k < |checks[1..]| && checks[1..][k](res) == e
                 && forall i :: 0 <= i < k ==> checks[1..][i](res).None?;
        assert checks[k + 1](res) == e;
        e
      else e
  }

  /** The three checks of a PUT object, in the order they run. */
  function PutObjectChecks(env: Collaborators, expectedStatusCode: int): seq<Check> {
    [ (res: Response) => VerifyHeaderPutObject(env, res.header),
      (res: Response) => VerifyStatusPutObject(res.statusCode, expectedStatusCode),
      (res: Response) => VerifyBodyPutObject(res.body) ]
  }

  /** `putObjectVerify` is the fail-first run of its three checks. */
  lemma PutObjectVerifyIsFirstFailure(env: Collaborators, res: Response, expectedStatusCode: int)
    ensures PutObjectVerify(env, res, expectedStatusCode)
         == FirstFailure(PutObjectChecks(env, expectedStatusCode), res)
  {
  }
}
