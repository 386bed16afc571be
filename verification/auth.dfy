/** The authentication gate in front of every route: exact-match public paths pass,
    every other path needs an `Authorization` header whose second space-separated
    field is non-empty (the bearer form of section 2.1 of RFC 6750, with the scheme
    itself never checked). Decoding the token is a foreign call, a parameter here. */
module Auth {
  import opened Outcomes
  import opened Js
  import opened Http

  const PublicPaths: seq<string> :=
    ["/", "/api/zoom", "/api/zoom/", "/api/zoom/access-token", "/api/zoom/signature"]

  const RequiredMessage := "Access token is required"
  const MissingMessage := "Access token is missing"
  const InvalidMessage := "Invalid or expired access token"

  /** The outcome of `jwt.decode(token, ...)`: it returns an opaque value or throws. */
  datatype Decoding = Decoded | DecodeThrew(error: string)

  /** `header.split(" ")[1]`; `None` is `undefined`. */
  function BearerToken(header: string): (r: Option<string>)
    ensures r.Some? <==> ' ' in header
  {
    var fields := Split(header, ' ');
    if |fields| >= 2 then Some(fields[1]) else None
  }

  /** The token check passes: the second field exists and is non-empty. */
  predicate HasToken(header: string)
  {
    BearerToken(header).Some? && BearerToken(header).value != ""
  }

  /** The token check passes exactly when the first space is followed by a character
      other than a space. So `"Bearer"`, `"Bearer "` and `"Bearer  x"` fail. */
  lemma HasTokenIff(header: string)
    ensures HasToken(header) <==>
              ' ' in header && IndexOf(header, ' ') + 1 < |header| && header[IndexOf(header, ' ') + 1] != ' '
  {
    if ' ' in header {
      var i := IndexOf(header, ' ');
      var rest := header[i + 1..];
      assert Split(header, ' ') == [header[..i]] + Split(rest, ' ');
      assert BearerToken(header) == Some(Split(rest, ' ')[0]);
      if ' ' in rest {
        var j := IndexOf(rest, ' ');
        assert Split(rest, ' ')[0] == rest[..j];
        if j == 0 {
          assert header[i + 1] == ' ';
        } else {
          assert header[i + 1] == rest[0] != ' ';
        }
      }
    }
  }

  /** Whatever the scheme, `<scheme> <token>` yields the token. */
  lemma SchemeNeverChecked(scheme: string, token: string)
    requires ' ' !in scheme && ' ' !in token
    ensures BearerToken(scheme + " " + token) == Some(token)
  {
    var h := scheme + " " + token;
    assert h[|scheme|] == ' ';
    assert h[..|scheme|] == scheme;
    IndexOfFirst(h, ' ', |scheme|);
    assert h[|scheme| + 1..] == token;
    assert Split(h, ' ') == [scheme] + Split(token, ' ');
    assert Split(token, ' ') == [token];
  }

  /** The gate: public-path exemption, then header presence, then token extraction,
      then the decode call. */
  function Authenticate(path: string, authorization: Option<string>, decode: string -> Decoding): (r: Gate)
    ensures path in PublicPaths ==> r == Next
    ensures r.Halt? ==> r.response.status == 401 && !r.response.body.success
    ensures path !in PublicPaths && (authorization.None? || authorization.value == "") ==>
              r == Halt(Rejection(401, RequiredMessage))
    ensures path !in PublicPaths && authorization.Some? && authorization.value != "" && !HasToken(authorization.value) ==>
              r == Halt(Rejection(401, MissingMessage))
    ensures path !in PublicPaths && authorization.Some? && HasToken(authorization.value) ==>
              var d := decode(BearerToken(authorization.value).value);
              && (d.Decoded? ==> r == Next)
              && (d.DecodeThrew? ==> r == Halt(Response(401, Envelope(false, InvalidMessage, NoData, Some(d.error)))))
  {
    if path in PublicPaths then Next
    else if authorization.None? || authorization.value == "" then Halt(Rejection(401, RequiredMessage))
    else
      var token := BearerToken(authorization.value);
      if token.None? || token.value == "" then Halt(Rejection(401, MissingMessage))
      else
        match decode(token.value)
        case Decoded => Next
        case DecodeThrew(e) => Halt(Response(401, Envelope(false, InvalidMessage, NoData, Some(e))))
  }

  /** Public paths match exactly: a longer path under a public one is not exempt. */
  lemma PublicMatchIsExact(decode: string -> Decoding)
    ensures Authenticate("/api/zoom/signature/", None, decode) == Halt(Rejection(401, RequiredMessage))
    ensures Authenticate("/api/zoom/get-user", None, decode) == Halt(Rejection(401, RequiredMessage))
  {
  }
}
