/**
  How the Beacon client turns its command-line options into one signed
  GET request: the endpoint loses its trailing slashes, a variant
  specifier `CHROM-POS-REF-ALT` becomes the Beacon query parameters, and
  the request carries the `X-Beacon-User` header and an HTTP-signature
  configuration over `date` and `x-beacon-user`.
 */
module Query {
  import opened Strings

  newtype byte = x: int | 0 <= x < 256

  datatype Option<T> = None | Some(value: T)

  datatype Result<T, E> = Ok(value: T) | Err(error: E)

  /** An ordered list of name/value pairs: query parameters or headers. */
  type Pairs = seq<(string, string)>

  /** The names of `ps`, in order. */
  function Names(ps: Pairs): seq<string>
  {
    seq(|ps|, i requires 0 <= i < |ps| => ps[i].0)
  }

  /** The values of `ps`, in order. */
  function Values(ps: Pairs): seq<string>
  {
    seq(|ps|, i requires 0 <= i < |ps| => ps[i].1)
  }

  /** The value of the first pair named `name`, if any. */
  function Lookup(ps: Pairs, name: string): Option<string>
    decreases |ps|
  {
    if |ps| == 0 then None
    else if ps[0].0 == name then Some(ps[0].1)
    else Lookup(ps[1..], name)
  }

  /** Lookup finds a pair whose name no earlier pair has. */
  lemma {:induction false} LookupAt(ps: Pairs, i: nat)
    requires i < |ps|
    requires forall j | 0 <= j < i :: ps[j].0 != ps[i].0
    ensures Lookup(ps, ps[i].0) == Some(ps[i].1)
    decreases i
  {
    if i > 0 {
      LookupAt(ps[1..], i - 1);
    }
  }

  // ---------------------------------------------------------------------
  // Endpoint normalisation

  /** Python's `s.endswith("/")`. */
  predicate EndsWithSlash(s: string)
  {
    |s| > 0 && s[|s| - 1] == '/'
  }

  predicate AllSlashes(s: string)
  {
    forall i | 0 <= i < |s| :: s[i] == '/'
  }

  /**
    The endpoint with every trailing `/` removed: a prefix of the input
    that does not end with `/`, and what was cut off is only slashes.
   */
  function StripTrailingSlashes(s: string): (r: string)
    ensures !EndsWithSlash(r)
    ensures r <= s
    ensures AllSlashes(s[|r|..])
    decreases |s|
  {
    if EndsWithSlash(s) then
      var r := StripTrailingSlashes(s[..|s| - 1]);
      assert s[|r|..] == s[..|s| - 1][|r|..] + "/";
      r
    else s
  }

  /**
    The three properties promised by StripTrailingSlashes determine its
    result: any split of `s` into a part not ending in `/` followed by
    slashes only is the one it finds.
   */
  lemma StripTrailingSlashesUnique(s: string, p: string)
    requires p <= s
    requires !EndsWithSlash(p)
    requires AllSlashes(s[|p|..])
    ensures StripTrailingSlashes(s) == p
  {
  }

  /** `k` slashes. */
  function Slashes(k: nat): string
  {
    seq(k, i => '/')
  }

  /** Any number of extra trailing slashes normalises away. */
  lemma {:induction false} StripIgnoresExtraSlashes(s: string, k: nat)
    ensures StripTrailingSlashes(s + Slashes(k)) == StripTrailingSlashes(s)
    decreases k
  {
    if k > 0 {
      var t := s + Slashes(k);
      assert EndsWithSlash(t);
      assert Slashes(k) == Slashes(k - 1) + "/";
      assert t[..|t| - 1] == s + Slashes(k - 1);
      StripIgnoresExtraSlashes(s, k - 1);
    } else {
      assert s + Slashes(k) == s;
    }
  }

  /** Normalising twice is the same as normalising once. */
  lemma StripIdempotent(s: string)
    ensures StripTrailingSlashes(StripTrailingSlashes(s)) == StripTrailingSlashes(s)
  {
  }

  // ---------------------------------------------------------------------
  // Variant specifiers

  /** The four fields of `CHROM-POS-REF-ALT`, kept as the strings given. */
  datatype Variant = Variant(chrom: string, pos: string, reference: string, alternate: string)

  /** Python's two ways of failing to unpack a split into four names. */
  datatype UnpackError =
    | NotEnoughValues(got: nat)   // "not enough values to unpack (expected 4, got N)"
    | TooManyValues               // "too many values to unpack (expected 4)"

  function Fields(v: Variant): seq<string>
  {
    [v.chrom, v.pos, v.reference, v.alternate]
  }

  /** The specifier string `CHROM-POS-REF-ALT` of a variant. */
  function FormatVariant(v: Variant): string
  {
    Join(Fields(v), '-')
  }

  /** No field of the variant contains a dash. */
  predicate WellFormed(v: Variant)
  {
    NoneContains(Fields(v), '-')
  }

  /**
    `chrom, pos, ref, alt = spec.split("-")`: succeeds exactly when the
    specifier holds three dashes; then the fields are dash-free (possibly
    empty) and format back to the specifier. With fewer dashes the error
    reports how many pieces there were; with more, too many values.
   */
  function ParseVariant(spec: string): (r: Result<Variant, UnpackError>)
    ensures r.Ok? <==> Count(spec, '-') == 3
    ensures r.Ok? ==> WellFormed(r.value) && FormatVariant(r.value) == spec
    ensures Count(spec, '-') < 3 ==> r == Err(NotEnoughValues(Count(spec, '-') + 1))
    ensures Count(spec, '-') > 3 ==> r == Err(TooManyValues)
  {
    var tokens := Split(spec, '-');
    SplitLength(spec, '-');
    if |tokens| < 4 then Err(NotEnoughValues(|tokens|))
    else if |tokens| > 4 then Err(TooManyValues)
    else
      FourTokens(spec);
      Ok(Variant(tokens[0], tokens[1], tokens[2], tokens[3]))
  }

  /** A specifier that splits into four pieces is the format of the variant they make. */
  lemma FourTokens(spec: string)
    requires |Split(spec, '-')| == 4
    ensures var t := Split(spec, '-'); var v := Variant(t[0], t[1], t[2], t[3]);
      WellFormed(v) && FormatVariant(v) == spec
  {
    var t := Split(spec, '-');
    JoinSplit(spec, '-');
    SplitPiecesFree(spec, '-');
    assert Fields(Variant(t[0], t[1], t[2], t[3])) == t;
  }

  /** Formatting a dash-free variant and parsing it gives back the same four fields. */
  lemma VariantRoundTrip(v: Variant)
    requires WellFormed(v)
    ensures ParseVariant(FormatVariant(v)) == Ok(v)
  {
    SplitJoin(Fields(v), '-');
  }

  // ---------------------------------------------------------------------
  // Query parameters, headers and signature configuration

  const AssemblyId := "GRCh37"

  const ParamNames := ["assemblyId", "referenceName", "start", "referenceBases", "alternateBases"]

  /**
    The parameters of a variant query: the fixed assembly identifier, then
    the four fields in order, each under its Beacon parameter name.
   */
  function VariantParams(v: Variant): (ps: Pairs)
    ensures Names(ps) == ParamNames
    ensures Values(ps) == [AssemblyId] + Fields(v)
    ensures Lookup(ps, "assemblyId") == Some(AssemblyId)
    ensures Lookup(ps, "referenceName") == Some(v.chrom)
    ensures Lookup(ps, "start") == Some(v.pos)
    ensures Lookup(ps, "referenceBases") == Some(v.reference)
    ensures Lookup(ps, "alternateBases") == Some(v.alternate)
  {
    var ps := [ ("assemblyId", AssemblyId),
                ("referenceName", v.chrom),
                ("start", v.pos),
                ("referenceBases", v.reference),
                ("alternateBases", v.alternate) ];
    LookupAt(ps, 2);
    LookupAt(ps, 3);
    LookupAt(ps, 4);
    ps
  }

  const UserHeader := "X-Beacon-User"

  /** The single header the client sets itself. */
  function BeaconHeaders(user: string): (hs: Pairs)
    ensures Names(hs) == [UserHeader]
    ensures Lookup(hs, UserHeader) == Some(user)
  {
    [(UserHeader, user)]
  }

  /** What the HTTP-signature authenticator is given; the signature itself is not modelled. */
  datatype SignatureAuth = SignatureAuth(algorithm: string, key: seq<byte>, keyId: string, headers: seq<string>)

  const SignedHeaders := ["date", "x-beacon-user"]

  /**
    The authenticator configuration: RSA-SHA256 with the key read from the
    key file and the caller's key id, signing exactly `date` and then
    `x-beacon-user`.
   */
  function Signing(key: seq<byte>, keyId: string): (a: SignatureAuth)
    ensures a.algorithm == "rsa-sha256" && a.key == key && a.keyId == keyId
    ensures a.headers == ["date", "x-beacon-user"]
  {
    SignatureAuth("rsa-sha256", key, keyId, SignedHeaders)
  }

  // ---------------------------------------------------------------------
  // The request

  datatype Request = Request(url: string, params: Option<Pairs>, headers: Pairs, auth: SignatureAuth)

  /** Python truthiness of `args.variant`: given on the command line and non-empty. */
  predicate IsGiven(variant: Option<string>)
  {
    variant.Some? && variant.value != ""
  }

  /** A given variant specifier that does not unpack into four fields. */
  predicate Malformed(variant: Option<string>)
  {
    IsGiven(variant) && Count(variant.value, '-') != 3
  }

  /**
    The request `run_query` sends for an endpoint that has already lost
    its trailing slashes. A given variant selects `<endpoint>/query` with
    the variant parameters, and a malformed one is the unpacking error;
    otherwise it is the info request `<endpoint>/` without parameters.
    Either way the user header and the signature configuration are set.
   */
  function BuildRequest(endpoint: string, variant: Option<string>, key: seq<byte>,
                        keyId: string, user: string): (r: Result<Request, UnpackError>)
    ensures r.Err? <==> Malformed(variant)
    ensures r.Err? ==> r == Err(ParseVariant(variant.value).error)
    ensures r.Ok? ==> r.value.url == endpoint + (if IsGiven(variant) then "/query" else "/")
    ensures r.Ok? ==> (r.value.params.Some? <==> IsGiven(variant))
    ensures r.Ok? && IsGiven(variant) ==>
      Names(r.value.params.value) == ParamNames &&
      Values(r.value.params.value) == [AssemblyId] + Split(variant.value, '-')
    ensures r.Ok? ==> Lookup(r.value.headers, UserHeader) == Some(user) && Names(r.value.headers) == [UserHeader]
    ensures r.Ok? ==> r.value.auth.algorithm == "rsa-sha256" && r.value.auth.key == key &&
                      r.value.auth.keyId == keyId && r.value.auth.headers == SignedHeaders
  {
    var headers := BeaconHeaders(user);
    var auth := Signing(key, keyId);
    if IsGiven(variant) then
      match ParseVariant(variant.value)
      case Err(e) => Err(e)
      case Ok(v) => Ok(Request(endpoint + "/query", Some(VariantParams(v)), headers, auth))
    else
      Ok(Request(endpoint + "/", None, headers, auth))
  }

  /** What a variant query carries for a well-formed variant: exactly its four fields. */
  lemma QueryCarriesVariant(endpoint: string, v: Variant, key: seq<byte>, keyId: string, user: string)
    requires WellFormed(v)
    ensures var r := BuildRequest(endpoint, Some(FormatVariant(v)), key, keyId, user);
      r.Ok? && r.value.url == endpoint + "/query" && r.value.params == Some(VariantParams(v))
  {
    VariantRoundTrip(v);
    assert |FormatVariant(v)| >= 3;
  }

  /**
    The URL for a raw endpoint: the endpoint without trailing slashes and
    then `/query` or `/`, so extra trailing slashes on the command line
    never change the request.
   */
  lemma RequestUrlForRawEndpoint(raw: string, k: nat, variant: Option<string>, key: seq<byte>,
                                 keyId: string, user: string)
    requires !Malformed(variant)
    ensures var r := BuildRequest(StripTrailingSlashes(raw + Slashes(k)), variant, key, keyId, user);
      r.Ok? && r.value == BuildRequest(StripTrailingSlashes(raw), variant, key, keyId, user).value &&
      r.value.url == StripTrailingSlashes(raw) + (if IsGiven(variant) then "/query" else "/")
  {
    StripIgnoresExtraSlashes(raw, k);
  }

  /** The command-line options of the `query` subcommand; `run_query` rewrites `endpoint` in place. */
  class QueryArgs {
    var keyFile: string
    var keyId: string
    var beaconUser: string
    var endpoint: string
    var variant: Option<string>

    constructor (keyFile: string, keyId: string, beaconUser: string, endpoint: string, variant: Option<string>)
      ensures this.keyFile == keyFile && this.keyId == keyId && this.beaconUser == beaconUser
      ensures this.endpoint == endpoint && this.variant == variant
    {
      this.keyFile := keyFile;
      this.keyId := keyId;
      this.beaconUser := beaconUser;
      this.endpoint := endpoint;
      this.variant := variant;
    }

    /** Drops one trailing `/` at a time while the endpoint ends with one. */
    method NormaliseEndpoint()
      modifies this`endpoint
      ensures endpoint == StripTrailingSlashes(old(endpoint))
    {
      while EndsWithSlash(endpoint)
        invariant StripTrailingSlashes(endpoint) == StripTrailingSlashes(old(endpoint))
        decreases |endpoint|
      {
        endpoint := endpoint[..|endpoint| - 1];
      }
    }

    /**
      The request-building part of `run_query`: normalise the endpoint in
      place, then build the request from the options and the key bytes
      read from `keyFile`.
     */
    method PrepareRequest(key: seq<byte>) returns (r: Result<Request, UnpackError>)
      modifies this`endpoint
      ensures endpoint == StripTrailingSlashes(old(endpoint))
      ensures r == BuildRequest(StripTrailingSlashes(old(endpoint)), variant, key, keyId, beaconUser)
    {
      NormaliseEndpoint();
      r := BuildRequest(endpoint, variant, key, keyId, beaconUser);
    }
  }
}
