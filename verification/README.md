# PUT-object test step of s3verify, modelled in Dafny

s3verify is a compatibility harness for S3-style object storage: each test
step sends one request to the server and checks that the response follows the
protocol. This project models the PUT-object step (`put-object.go`), which has
four parts:

- **Request construction** (`newPutObjectReq`, module `RequestBuilder`). It
  builds a request from a bucket name, an object key and a payload. The
  request declares the payload length, the base 64 MD5 digest (`Content-Md5`),
  the hex SHA-256 digest (`X-Amz-Content-Sha256`) and the fixed `User-Agent`.
  If hashing fails, it returns the zero request together with the error.
- **Response verification** (`putObjectVerify` and its header, status and body
  checks, module `ResponseVerifier`). The checks run in that order and the
  first failure is returned. Both generated error messages are modelled
  character for character. Each is proved to carry its data recoverably: both
  status codes in one, the received body in the other.
- **The object registry** (`s3verifyObjects`). It is an append-only sequence
  of `ObjectInfo(key, body)`, passed into each step and returned from it.
- **The two test modes** (module `TestStep`). Prepared mode uploads one object
  under `s3verify/made/put/object`. Unprepared mode is a fail-fast loop of 101
  uploads under `s3verify/put/object/<i>`. The loop is a method whose
  invariants tie the registry to the successful prefix of iterations. A
  recursive reference definition, `RunFrom`, is proved to have the same
  behaviour.

Modules: `Basics` (bytes, `Option`, `Result`, Go errors), `Decimal` (the
decimal spelling of `strconv.Itoa` and `%v`, with its parser), `Http`
(request, response, transport stub, collaborators), `RequestBuilder`,
`ResponseVerifier`, `TestStep`.

Code outside the model is passed in as a `Collaborators` value:

- the digests (MD5, RFC 1321; SHA-256, FIPS 180-4);
- the encoders (base 64, section 4 of RFC 4648; hex, section 8 of RFC 4648);
- the read error hashing may report;
- the application's user-agent string;
- the standard-header validator.

The transport is a stub per call (`Request -> Exec`), and random bodies are
parameters.

A few facts about the code that shape the model:

- `newPutObjectReq` does not check for empty bucket or object names, so the
  model accepts them too.
- `mainPutObjectUnPrepared` runs exactly 101 iterations. The generic loop
  `PutObjectsFailFast` takes any count, and `MainPutObjectUnPrepared` fixes it
  at 101.
- Of the three object lists declared in `put-object.go`, only
  `s3verifyObjects` is appended to by these two functions.
- The loop methods also return `completed`, the number of iterations that
  succeeded. The source keeps it only implicitly, as the length the registry
  grew by.

## Model

| member | source | states |
|---|---|---|
| RequestBuilder.NewPutObjectReq | put-object.go:42-68 | On success: bucket and object names are the inputs, the body is exactly the payload, the declared length is the payload length, and the three headers are the base 64 MD5, the hex SHA-256 and the user agent, each derived from that same body. On a hashing error: the zero `Request{}` and that same error; there is no other failure |
| RequestBuilder.DescriptionDeterminedByBody | put-object.go:53-65 | Two requests that both describe the same body bytes declare the same length and an identical header map, so headers and length are functions of the body alone |
| RequestBuilder.HeadersIndependentOfNames | put-object.go:48-63 | Building for one payload under any bucket and object names yields the same headers and declared length, whether hashing succeeds or not |
| ResponseVerifier.VerifyHeaderPutObject | put-object.go:108-113 | The header check returns the standard-header validator's verdict unchanged |
| ResponseVerifier.VerifyStatusPutObject | put-object.go:85-91 | Passes if and only if the codes are equal; on a mismatch both the wanted and the received code can be read back from the error message |
| ResponseVerifier.StatusError | put-object.go:87 | The error built for a status mismatch starts with "Unexpected Response Status Code: wanted " and both codes can be read back from it |
| ResponseVerifier.StatusErrorRoundTrip | put-object.go:87 | The status message starts with the fixed prefix and parses back to exactly (wanted, got), negative codes included |
| ResponseVerifier.ParseCodesRoundTrip | put-object.go:87 | The text following the message prefix, `<wanted>, got <got>`, parses back to exactly (wanted, got) |
| ResponseVerifier.StatusErrorForbidden | put-object.go:87 | The message for wanted 200, got 403 is "Unexpected Response Status Code: wanted 200, got 403" |
| ResponseVerifier.VerifyBodyPutObject | put-object.go:94-105 | Passes if and only if the body reads to the end without error and is empty; a read error is returned unchanged; any content is reported and can be read back from the error |
| ResponseVerifier.BytesToString | put-object.go:101 | `string(body)` loses nothing: the bytes can be read back from the string |
| ResponseVerifier.BodyError | put-object.go:101 | The error built for a non-empty body starts with "Unexpected Body Recieved: expected empty body but recieved: " and the received bytes can be read back from it |
| ResponseVerifier.BodyErrorRoundTrip | put-object.go:101 | The body message parses back to exactly the received bytes |
| ResponseVerifier.PutObjectVerify | put-object.go:71-82 | Passes if and only if headers are valid, the status equals the expected code and the body is empty; a header failure is returned first, then a status failure (with both codes), then the body check's verdict |
| ResponseVerifier.BodyIgnoredAfterEarlyFailure | put-object.go:71-82 | When the header or status check fails, the verdict is the same whatever the body is: the body is not inspected |
| ResponseVerifier.FirstFailure | put-object.go:71-82 | Running checks in order gives no error if and only if every check passes, and otherwise the error of a check all of whose predecessors passed |
| ResponseVerifier.PutObjectVerifyIsFirstFailure | put-object.go:71-82 | `putObjectVerify` equals running the header, status and body checks in that order and stopping at the first failure |
| Decimal.NatToString | put-object.go:174 | `strconv.Itoa` of a non-negative index is a non-empty string of digits with no leading zero |
| Decimal.IntToString | put-object.go:87 | `%v` of an int is a non-empty string of digits and minus signs |
| Decimal.NatRoundTrip | put-object.go:174 | Parsing the decimal spelling of an index returns that index |
| Decimal.NatToStringInjective | put-object.go:174 | Distinct indices have distinct decimal spellings |
| Decimal.IntRoundTrip | put-object.go:87 | Parsing the `%v` spelling of any int, negative or not, returns that int |
| TestStep.ObjectKey | put-object.go:174 | The key of iteration i starts with `s3verify/put/object/` and has an index part after it |
| TestStep.ObjectKeyRoundTrip | put-object.go:174 | The index can be read back from the key of every iteration |
| TestStep.ObjectKeysDistinct | put-object.go:174 | The keys `s3verify/put/object/<i>` of distinct iterations are distinct |
| TestStep.FirstObjectKeys | put-object.go:174 | Iterations 0 and 1 use the keys `s3verify/put/object/0` and `s3verify/put/object/1` |
| TestStep.PutObject | put-object.go:131-151 | One upload succeeds if and only if hashing succeeds, the transport answers the built request, and that response has valid headers, status 200 and an empty body. The reported error is the first failure, in that order: the hashing error unchanged, else the transport error unchanged, else exactly the error `putObjectVerify` returns for the response |
| TestStep.MainPutObjectPrepared | put-object.go:116-159 | Passes exactly when build, execute and verify against 200 all succeed; then the registry grows by exactly `ObjectInfo("s3verify/made/put/object", body)` with a 60-byte body. The reported error is always the one-upload error for that object: on failure it is the build, transport or verification error that stopped the step, and the registry is unchanged |
| TestStep.RunFrom | put-object.go:170-200 | Reference semantics of the loop from iteration i: it passes exactly when it reports no error; the old registry is a prefix of the new one; at most one object is added per remaining iteration; and a pass adds one object for every remaining iteration |
| TestStep.RunFromUnfold | put-object.go:179-197 | One iteration of the loop: a failing attempt ends the loop with that attempt's error and the registry unchanged; a successful one registers its object and continues with the next index |
| TestStep.RunFromStopsAtFirstFailure | put-object.go:170-200 | If iteration k is the first to fail, the loop reports k's error after registering exactly the objects of iterations 0..k-1, in order |
| TestStep.RunFromAllPass | put-object.go:170-200 | If no iteration fails, the loop passes having registered every iteration's object in index order |
| TestStep.RunFromIgnoresLaterIterations | put-object.go:170-200 | Bodies and transport stubs of iterations after the first failing one are never consulted: replacing them leaves the outcome unchanged |
| TestStep.PutObjectsFailFast | put-object.go:170-200 | With `completed` the number of iterations that succeeded: every iteration before it succeeded; the registry is the old one followed by exactly those iterations' objects, in index order; the loop passes if and only if all iterations completed; otherwise it reports the error of iteration `completed`, the first to fail, and attempts nothing after it; the result agrees with the reference `RunFrom` |
| TestStep.MainPutObjectUnPrepared | put-object.go:162-206 | With 101 iterations: the old registry is a prefix of the new one, which holds exactly `completed` more objects, keyed `s3verify/put/object/0` onward in order; every added object has a 60-byte body; added keys are pairwise distinct; it passes if and only if all 101 uploads succeed, and then reports no error; otherwise it reports the error of the first failing iteration; the result agrees with the reference `RunFrom` |
| TestStep.PutObjectAgainstStub | put-object.go:131-151 | Against a server answering valid headers and an empty body, one upload passes on 200 and otherwise fails with the status error for 200 versus the received code |
| TestStep.PreparedPassesOnCleanResponse | put-object.go:116-159 | Prepared mode against a 200 with valid headers and an empty body passes and registers exactly the new object |
| TestStep.PreparedFailsOnForbidden | put-object.go:148-151 | Prepared mode against a 403 fails with "Unexpected Response Status Code: wanted 200, got 403" and leaves the registry unchanged |
| TestStep.LoopStopsAtThirdFailure | put-object.go:170-200 | A five-iteration loop whose third upload gets a 403 registers exactly objects `s3verify/put/object/0` and `/1` and fails with the status error |

## Left out

- RequestBuilder.ComputeHash — the assumed behaviour of `computeHash` (put-object.go:53-57), defined from the collaborators rather than proved: it fails with the hashing read error when there is one, and otherwise reports the two digests of the payload and its length. It carries no contract of its own; `NewPutObjectReq` states the resulting request.
- The internals of `computeHash` and of the MD5, SHA-256, base 64 and hex functions. These are library or foreign code. They are fields of `Collaborators`, and the model assumes `computeHash` counts exactly the bytes it reads and leaves the reader at the start of the payload.
- The hashing read error. Reading an in-memory payload never fails in practice, but the code handles the error, so it stays a collaborator field.
- `config.execRequest`, the network transport. Each call is a stub `Request -> Exec` supplied by the caller; a stub that ignores its request is a fixed stubbed outcome.
- `closeResponse`, and the `defer` inside the loop (put-object.go:190) that postpones every close until the function returns. This is a resource-lifetime concern, not logic.
- `randString`, `rand.NewSource` and `time.Now()`. Object bodies are parameters, each required to be 60 bytes long.
- `scanBar`, `printMessage` and the `[%02d/%d] PutObject:` progress line. These are display output. The model returns the error the step would print instead.
- `verifyStandardHeaders`. It is defined elsewhere and is modelled as a collaborator verdict.
- `preparedObjects` and `copyObjects`. They are declared but never used by these functions.
- `s3verifyBuckets[0]`. It is indexed without a bounds check; a non-empty bucket list is a precondition instead of a modelled panic.
- `http.Header` name canonicalisation and multi-valued headers. Header names are stored in their canonical spelling (`Content-Md5`), one value each.
- Single-read body streams. A body is a value holding its content and an optional read error, so reading the body at most once is not modelled beyond `BodyIgnoredAfterEarlyFailure`.
- `s3verifyObjects` holds pointers (`[]*ObjectInfo`, put-object.go:33), while the model's registry holds `ObjectInfo` values. Nothing in `put-object.go` changes an object after it is registered, so aliasing is not modelled.
- Go strings. The message built with `string(body)` is modelled as one character per byte, with the byte's value.
