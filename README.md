# Clinical Beacon client: request construction, in Dafny

This project models the part of the VarFish clinical Beacon client that
decides what the `query` subcommand sends and what it reports:

- the endpoint loses every trailing `/`, one character at a time, in place
  on the parsed options;
- a variant specifier `CHROM-POS-REF-ALT` is split on `-` and unpacked
  into exactly four fields. Empty fields are kept. Any other number of
  pieces is Python's unpacking error;
- a variant query goes to `<endpoint>/query` with the parameters
  `assemblyId=GRCh37`, `referenceName`, `start`, `referenceBases` and
  `alternateBases`. An info request goes to `<endpoint>/` with no
  parameters;
- every request carries the `X-Beacon-User` header. It also carries an
  HTTP-signature configuration: algorithm `rsa-sha256`, the caller's key
  id, and the signed headers `date` then `x-beacon-user`;
- once the response arrives, the body is printed when it parses as JSON.
  An unparsable body raises on an OK status and is swallowed on an error
  status;
- `main` returns 1 when no subcommand was chosen and 0 after a handler
  returns.

Files:

- `strings.dfy` (module `Strings`): Python's `str.split` and `str.join`
  for a one-character separator. Includes the split/join round trips.
- `query.dfy` (module `Query`): endpoint normalisation, variant parsing,
  parameters, headers, the signature configuration and the request. The
  class `QueryArgs` holds the parsed `query` options. Its
  `NormaliseEndpoint` is the in-place loop, proved against the function
  `StripTrailingSlashes`.
- `query_examples.dfy` (module `QueryExamples`): example specifiers and
  endpoints: well-formed, empty-field, short and long specifiers, and one
  host with zero to two trailing slashes.
- `cli.dfy` (module `Cli`): the response-output rule, one whole `query`
  run, and the exit code of `main`.

Inputs the program gets from outside are parameters of the model:

- The bytes of the key file are a `seq<byte>`.
- The HTTP exchange is a function `Request -> Option<Response>`. None
  stands for `requests.get` or the signer raising.
- The result of `json.dumps(r.json(), indent=2)` is a `BodyParse`: either
  the pretty-printed text or "unparsable".

On an OK status whose body is not JSON, `r.json()` at line 71 is not
guarded and raises out of `run_query`, so `main` never reaches
`return 0`. `Cli.RunQuery` and `Cli.ExitStatus` model this as
`Propagated`.

## Model

| member | source | states |
|---|---|---|
| Strings.SplitLength | clinical-beacon-client.py:38 | `split("-")` yields one piece more than the string has dashes |
| Strings.SplitPiecesFree | clinical-beacon-client.py:38 | no piece of a split contains the separator |
| Strings.JoinSplit | clinical-beacon-client.py:38 | joining the pieces of a split with the separator gives back the original string, so nothing is lost (empty pieces included) |
| Strings.SplitJoin | clinical-beacon-client.py:38 | splitting the join of separator-free pieces returns exactly those pieces in order |
| Query.StripTrailingSlashes | clinical-beacon-client.py:33-34 | the normalised endpoint does not end with `/`, is a prefix of the input, and the removed suffix is only `/` characters |
| Query.StripTrailingSlashesUnique | clinical-beacon-client.py:33-34 | those three properties force the result: any such split of the input is the one normalisation finds |
| Query.StripIgnoresExtraSlashes | clinical-beacon-client.py:33-34 | appending any number of `/` to an endpoint does not change its normalisation |
| Query.StripIdempotent | clinical-beacon-client.py:33-34 | normalising twice equals normalising once |
| Query.QueryArgs.NormaliseEndpoint | clinical-beacon-client.py:33-34 | the loop that drops one trailing `/` per step leaves `endpoint` equal to the normalisation of its old value and changes no other option |
| Query.QueryArgs.PrepareRequest | clinical-beacon-client.py:33-65 | normalises the endpoint in place, then returns the request built from the normalised endpoint and the other options |
| Query.ParseVariant | clinical-beacon-client.py:38 | unpacking succeeds exactly when the specifier has three dashes; the four fields are dash-free and format back to the specifier. Fewer dashes give "not enough values" with the piece count; more dashes give "too many values" |
| Query.VariantRoundTrip | clinical-beacon-client.py:38 | for four dash-free fields, formatting them as `CHROM-POS-REF-ALT` and parsing returns the same four fields in order |
| Query.VariantParams | clinical-beacon-client.py:39-45 | the parameter names are `assemblyId, referenceName, start, referenceBases, alternateBases` in that order. `assemblyId` is `GRCh37` and the other four carry chrom, pos, ref and alt |
| Query.BeaconHeaders | clinical-beacon-client.py:54 | the only header set is `X-Beacon-User`, and its value is the user string |
| Query.Signing | clinical-beacon-client.py:60-65 | the authenticator is configured with algorithm `rsa-sha256`, the key bytes, the caller's key id, and the signed headers exactly `date` then `x-beacon-user` |
| Query.BuildRequest | clinical-beacon-client.py:35-65 | fails exactly for a given, malformed variant, with the unpacking error. Otherwise the URL is endpoint + `/query` (variant given) or endpoint + `/`. Parameters are present exactly for a variant query: GRCh37 followed by the split fields. The user header is set. The signature config is `rsa-sha256` with the caller's key and key id, signing exactly `date` then `x-beacon-user` |
| Query.QueryCarriesVariant | clinical-beacon-client.py:35-45 | a well-formed variant's specifier yields a `/query` request whose parameters carry exactly that variant's fields |
| Query.RequestUrlForRawEndpoint | clinical-beacon-client.py:33-48 | for a raw endpoint, extra trailing slashes never change the request; the URL is the normalised endpoint followed by `/query` or `/` |
| QueryExamples.VariantExample | clinical-beacon-client.py:38 | `1-123456-A-G` parses to chrom `1`, pos `123456`, ref `A`, alt `G` |
| QueryExamples.EmptyFieldExample | clinical-beacon-client.py:38 | `1--A-G` parses, with an empty position field |
| QueryExamples.ShortVariantExample | clinical-beacon-client.py:38 | `1-123456-A` fails with "not enough values" (3 found) |
| QueryExamples.LongVariantExample | clinical-beacon-client.py:38 | `1-123456-A-G-T` fails with "too many values" |
| QueryExamples.HostExample | clinical-beacon-client.py:33-34 | `http://host`, `http://host/` and `http://host//` all normalise to `http://host` |
| QueryExamples.QueryUrlExample | clinical-beacon-client.py:33-37 | with variant `1-123456-A-G`, both `http://host/` and `http://host` query `http://host/query` |
| QueryExamples.InfoUrlExample | clinical-beacon-client.py:46-48 | without a variant, `http://host//` yields the info URL `http://host/` |
| Cli.ReportResponse | clinical-beacon-client.py:68-81 | the body is printed exactly when it parses, whatever the status. A failure escapes exactly on an OK status with an unparsable body, so an error status never raises |
| Cli.RunQuery | clinical-beacon-client.py:32-81 | a malformed variant raises before anything is sent or printed, and so does a failed exchange. Otherwise the body of the response to the sent request is printed exactly when it parses, and the run raises exactly when that response is OK with an unparsable body |
| Cli.ExitStatus | clinical-beacon-client.py:134-139 | returns 1 exactly when no subcommand was chosen, and 0 exactly when the chosen handler returned. Otherwise the handler's exception propagates |
| Cli.ErrorStatusExitsZero | clinical-beacon-client.py:73-81 | for a well-formed or absent variant and an error status on the request sent, `main` returns 0, and standard output holds the error body exactly when it parses |
| Cli.OkJsonPrintsBody | clinical-beacon-client.py:68-72 | an OK status with a JSON body on the request sent prints that body as the only printed text, and `main` returns 0 |

## Left out

- `run_gen_key`, RSA key generation and PEM export (lines 15-29): calls into a cryptography library, and file writes.
- Reading the key file (lines 51-52): the key bytes are a parameter, and a read failure is not modelled.
- Sending the GET request and computing the HTTP signature (lines 56-66): network I/O and third-party cryptography. The model stops at what the authenticator is given (`SignatureAuth`). The `Date` and `Authorization` headers the library adds are not modelled.
- URL query-string encoding of the parameters by the HTTP library: the model keeps the ordered name/value pairs, not the percent-encoded string.
- JSON parsing and `json.dumps(..., indent=2)`: abstracted as `BodyParse`.
- All logging (`logger.info` lines, including the "variant query" and "info request" completion lines): not observable on standard output.
- argparse (lines 91-133): the parsed options are the constructor arguments of `QueryArgs` and the values given to `RunQuery`. The help text printed when no subcommand is chosen is not modelled.
- Cli.RunQuery: a failed exchange is one undistinguished None from `server`. It stands for every exception `requests.get` and `HTTPSignatureAuth` raise (lines 56-66): transport errors; a URL without a scheme, such as the `/query` an endpoint of `///` gives; key bytes the signer cannot load. Which requests fail is up to `server`, since the HTTP library's validation is not part of this model.
- Cli.ReportResponse: the bare `except:` at line 80 would also swallow a failure of `print` itself. The model assumes printing does not fail, and it does not distinguish kinds of exception.
