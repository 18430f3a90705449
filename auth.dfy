/** The service's request authentication and the normalisation of the
    credentials the login and registration forms post. */
module Auth {
  import opened Wrappers
  import opened Text

  /** An HTTPException: the status and the `detail` text. */
  datatype HttpError = HttpError(status: int, detail: string)

  const NoTokenDetail := "Sem token (faça login)."
  const BadTokenDetail := "Token inválido/expirado."

  /** auth_user: the caller's user id from an `Authorization` header of
      the form `Bearer <token>` (section 2.1 of RFC 6750), the scheme
      matched case-insensitively. `decode` stands for verifying the token
      and reading its `sub` claim as an integer; None is any failure. */
  function AuthUser(header: Option<string>, decode: string -> Option<int>): (r: Result<int, HttpError>)
    ensures r.Ok? <==>
              header.Some? && IsPrefix("bearer ", Lower(header.value)) && decode(header.value[7..]).Some?
    ensures r.Ok? ==> r.value == decode(header.value[7..]).value
    ensures r.Err? ==> r.error.status == 401
    ensures r.Err? && (header == None || !IsPrefix("bearer ", Lower(header.value))) ==> r.error.detail == NoTokenDetail
  {
    if header == None || header.value == "" || !IsPrefix("bearer ", Lower(header.value)) then
      Err(HttpError(401, NoTokenDetail))
    else
      match decode(header.value[7..])
      case None => Err(HttpError(401, BadTokenDetail))
      case Some(id) => Ok(id)
  }

  /** The header the client sends, `Bearer ${token}`, authenticates as the
      token's user, and so does any other capitalisation of the scheme. */
  lemma AuthUserOfBearer(scheme: string, token: string, decode: string -> Option<int>)
    requires |scheme| == 6 && Lower(scheme) == "bearer"
    ensures AuthUser(Some(scheme + " " + token), decode) ==
              if decode(token).Some? then Ok(decode(token).value) else Err(HttpError(401, BadTokenDetail))
  {
    var h := scheme + " " + token;
    assert h[..7] == scheme + " ";
    assert Lower(h)[..7] == Lower(scheme) + " ";
    assert h[7..] == token;
  }

  /** A header without the scheme, such as a bare token, is refused
      before the token is looked at. */
  lemma AuthUserNeedsScheme(header: string, decode: string -> Option<int>)
    requires |header| < 7 || Lower(header)[..7] != "bearer "
    ensures AuthUser(Some(header), decode) == Err(HttpError(401, NoTokenDetail))
  {
  }

  /** `email.lower().strip()`. */
  function NormalizeEmail(email: string): (r: string)
    ensures IsLowerCase(r)
    ensures r == [] || (!IsPySpace(r[0]) && !IsPySpace(r[|r| - 1]))
  {
    var low := Lower(email);
    LowerIsLowerCase(email);
    var r := PyStrip(low);
    StripKeepsLowerCase(low);
    r
  }

  lemma StripKeepsLowerCase(s: string)
    requires IsLowerCase(s)
    ensures IsLowerCase(PyStrip(s))
  {
    var l := TrimLeft(s, IsPySpace);
    LowerCaseSlice(s, |s| - |l|, |s|);
    var r := TrimRight(l, IsPySpace);
    LowerCaseSlice(l, 0, |r|);
  }

  lemma LowerCaseSlice(s: string, lo: int, hi: int)
    requires IsLowerCase(s) && 0 <= lo <= hi <= |s|
    ensures IsLowerCase(s[lo..hi])
  {
    forall i | 0 <= i < hi - lo ensures !('A' <= s[lo..hi][i] <= 'Z') {
      assert s[lo..hi][i] == s[lo + i];
    }
  }

  lemma LowerOfLowerCase(s: string)
    requires IsLowerCase(s)
    ensures Lower(s) == s
  {
  }

  /** Normalising twice is normalising once, so an address typed in any
      case with surrounding blanks reaches the same account. */
  lemma NormalizeEmailIdempotent(email: string)
    ensures NormalizeEmail(NormalizeEmail(email)) == NormalizeEmail(email)
  {
    var n := NormalizeEmail(email);
    LowerOfLowerCase(n);
    TrimIdempotent(Lower(email), IsPySpace);
  }

  /** Capitals do not matter: an address and its lower-case form
      normalise alike. */
  lemma NormalizeEmailIgnoresCase(email: string)
    ensures NormalizeEmail(Lower(email)) == NormalizeEmail(email)
  {
    LowerIsLowerCase(email);
  }

  /** Nor do leading blanks. */
  lemma NormalizeEmailIgnoresLeadingBlanks(pad: string, email: string)
    requires forall i :: 0 <= i < |pad| ==> IsPySpace(pad[i])
    ensures NormalizeEmail(pad + email) == NormalizeEmail(email)
  {
    var lp := Lower(pad);
    assert Lower(pad + email) == lp + Lower(email);
    forall i | 0 <= i < |lp| ensures IsPySpace(lp[i]) {
      LowerKeepsSpaces(pad[i]);
    }
    TrimLeftSkips(lp, Lower(email), IsPySpace);
  }

  /** register refuses a password of fewer than 4 characters. */
  const MinPassword := 4

  predicate PasswordAccepted(password: string) {
    |password| >= MinPassword
  }
}
