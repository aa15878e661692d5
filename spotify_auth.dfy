/** The Spotify sign-in of `src/backend/spotify/auth.rs`: an authorization-code grant
    (section 4.1 of RFC 6749) with a PKCE code verifier (section 4.1 of RFC 7636). The random
    choices, the SHA-256 challenge, the browser, the local listener and the two HTTP requests
    are parameters. */
module SpotifyAuth {
  import opened Wrappers
  import opened Text
  import opened Http
  import opened SpotifyTypes
  import Seqs

  const AUTH_URL: string := "https://accounts.spotify.com/authorize"
  const TOKEN_URL: string := "https://accounts.spotify.com/api/token"
  const API: string := "https://api.spotify.com/v1"
  const PORT: nat := 18492
  const REDIRECT: string := "http://127.0.0.1:18492/callback"
  const SCOPES: string := "playlist-read-private" + " " + "playlist-read-collaborative" + " " + "user-library-read"

  // ---------------------------------------------------------------- code verifier

  /** The characters section 4.1 of RFC 7636 allows in a code verifier:
      ALPHA / DIGIT / "-" / "." / "_" / "~". */
  predicate IsUnreserved(c: char)
  {
    'a' <= c <= 'z' || 'A' <= c <= 'Z' || '0' <= c <= '9' || c == '-' || c == '.' || c == '_' || c == '~'
  }

  /** `n` consecutive characters from `first` on. */
  function CharRange(first: char, n: nat): (r: string)
    requires first as int + n <= 0xD800
    ensures |r| == n
    ensures forall i :: 0 <= i < n ==> r[i] as int == first as int + i
  {
    seq(n, i requires 0 <= i < n => (first as int + i) as char)
  }

  /** The alphabet `gen_verifier` draws from, in its order: "a".."z", "A".."Z", "0".."9", "-._~". */
  const VERIFIER_CHARS: string := CharRange('a', 26) + CharRange('A', 26) + CharRange('0', 10) + "-._~"

  /** Where an unreserved character sits in the alphabet. */
  function AlphabetIndex(c: char): (i: nat)
    requires IsUnreserved(c)
    ensures i < |VERIFIER_CHARS| && VERIFIER_CHARS[i] == c
  {
    var a, u, d := CharRange('a', 26), CharRange('A', 26), CharRange('0', 10);
    assert VERIFIER_CHARS[..26] == a && VERIFIER_CHARS[26..52] == u && VERIFIER_CHARS[52..62] == d;
    assert VERIFIER_CHARS[62..] == "-._~";
    if 'a' <= c <= 'z' then
      assert a[c as int - 'a' as int] == c;
      c as int - 'a' as int
    else if 'A' <= c <= 'Z' then
      assert u[c as int - 'A' as int] == c;
      26 + (c as int - 'A' as int)
    else if '0' <= c <= '9' then
      assert d[c as int - '0' as int] == c;
      52 + (c as int - '0' as int)
    else if c == '-' then 62
    else if c == '.' then 63
    else if c == '_' then 64
    else 65
  }

  /** The alphabet has 66 characters, all of them unreserved, and every unreserved character
      is in it. */
  lemma VerifierAlphabet()
    ensures |VERIFIER_CHARS| == 66
    ensures forall i :: 0 <= i < |VERIFIER_CHARS| ==> IsUnreserved(VERIFIER_CHARS[i])
    ensures forall c :: IsUnreserved(c) ==> c in VERIFIER_CHARS
  {
    var a, u, d := CharRange('a', 26), CharRange('A', 26), CharRange('0', 10);
    assert VERIFIER_CHARS == a + u + d + "-._~";
    forall i | 0 <= i < |VERIFIER_CHARS|
      ensures IsUnreserved(VERIFIER_CHARS[i])
    {
      if i < 26 {
        assert VERIFIER_CHARS[i] == a[i];
      } else if i < 52 {
        assert VERIFIER_CHARS[i] == u[i - 26];
      } else if i < 62 {
        assert VERIFIER_CHARS[i] == d[i - 52];
      }
    }
    forall c | IsUnreserved(c)
      ensures c in VERIFIER_CHARS
    {
      var i := AlphabetIndex(c);
    }
  }

  /** Picks fit the alphabet: each is a `gen_range(0..66)` draw. */
  predicate ValidPicks(picks: seq<nat>)
  {
    |picks| == 64 && forall i :: 0 <= i < |picks| ==> picks[i] < 66
  }

  /** `gen_verifier`: 64 characters, the i-th being the alphabet character the i-th random
      draw picks. */
  function GenVerifier(picks: seq<nat>): (v: string)
    requires ValidPicks(picks)
    ensures |v| == 64
    ensures forall i :: 0 <= i < |v| ==> IsUnreserved(v[i])
  {
    VerifierAlphabet();
    seq(64, i requires 0 <= i < 64 => VERIFIER_CHARS[picks[i]])
  }

  /** Every 64-character verifier the RFC allows can come out of `gen_verifier`. */
  lemma GenVerifierOnto(v: string)
    requires |v| == 64 && forall i :: 0 <= i < |v| ==> IsUnreserved(v[i])
    ensures exists picks :: ValidPicks(picks) && GenVerifier(picks) == v
  {
    VerifierAlphabet();
    var picks := seq(64, i requires 0 <= i < 64 => AlphabetIndex(v[i]));
    assert GenVerifier(picks) == v;
  }

  // ---------------------------------------------------------------- the callback request

  const CODE_KEY: string := "code="
  const NO_CODE: string := "no code in callback"

  /** `str::lines().next()`: the text before the first line feed, without a carriage return
      just before it; none for empty text. */
  function FirstLine(req: string): (r: Option<string>)
    ensures r.None? <==> req == []
    ensures r.Some? ==> '\n' !in r.value && StartsWith(req, r.value)
  {
    if req == [] then None
    else
      var i := IndexOf(req, '\n');
      var line := req[..i];
      assert forall j :: 0 <= j < |line| ==> line[j] == req[j] != '\n';
      if i < |req| && line != [] && line[|line| - 1] == '\r' then
        assert line[..|line| - 1] == req[..|line| - 1];
        Some(line[..|line| - 1])
      else Some(line)
  }

  /** Rust's `Iterator::find` for the first parameter starting with "code=": its index, or the
      number of parameters when there is none. */
  function FirstCodeIndex(params: seq<string>): (k: nat)
    ensures k <= |params|
    ensures k < |params| ==> StartsWith(params[k], CODE_KEY)
    ensures forall j :: 0 <= j < k ==> !StartsWith(params[j], CODE_KEY)
  {
    if params == [] then 0
    else if StartsWith(params[0], CODE_KEY) then 0
    else 1 + FirstCodeIndex(params[1..])
  }

  /** The '&'-separated parameters of the browser's request: the second word of the first
      line, the text after its first '?' (up to a second one); none when the request has no
      such line, word or '?'. */
  function CallbackParams(req: string): Option<seq<string>>
  {
    match FirstLine(req)
    case None => None
    case Some(line) =>
      var words := Words(line);
      if |words| < 2 then None
      else
        var parts := Split(words[1], '?');
        if |parts| < 2 then None else Some(Split(parts[1], '&'))
  }

  /** The code in the browser's request to the redirect URI: the first parameter starting
      with "code=", every leading "code=" removed; the value is not percent-decoded. */
  function CallbackCode(req: string): (r: Result<string>)
    ensures r.Err? ==> r.error == NO_CODE
    // a code is found exactly when some parameter starts with "code="
    ensures r.Ok? <==> CallbackParams(req).Some? &&
                       exists k :: 0 <= k < |CallbackParams(req).value| && StartsWith(CallbackParams(req).value[k], CODE_KEY)
    // and it is the first such parameter's value
    ensures r.Ok? ==> var ps := CallbackParams(req).value;
                      exists k :: && 0 <= k < |ps| && StartsWith(ps[k], CODE_KEY)
                                  && (forall j :: 0 <= j < k ==> !StartsWith(ps[j], CODE_KEY))
                                  && r.value == TrimStartStr(ps[k], CODE_KEY)
    ensures r.Ok? ==> !StartsWith(r.value, CODE_KEY)
  {
    match CallbackParams(req)
    case None => Err(NO_CODE)
    case Some(params) =>
      var k := FirstCodeIndex(params);
      if k == |params| then Err(NO_CODE) else Ok(TrimStartStr(params[k], CODE_KEY))
  }

  /** The request line "<method> <path>?<p1>&...&<pn> <version>" of a request reads back as
      the value of the first parameter named code. */
  lemma CallbackCodeOfRequest(meth: string, path: string, params: seq<string>, version: string, rest: string, k: nat)
    requires meth != [] && NoWhitespace(meth) && version != [] && NoWhitespace(version)
    requires NoWhitespace(path) && '?' !in path
    requires |params| >= 1
    requires forall i :: 0 <= i < |params| ==> NoWhitespace(params[i]) && '?' !in params[i] && '&' !in params[i]
    requires k < |params| && StartsWith(params[k], CODE_KEY)
    requires forall j :: 0 <= j < k ==> !StartsWith(params[j], CODE_KEY)
    ensures CallbackCode(meth + " " + path + "?" + JoinWith(params, '&') + " " + version + "\r\n" + rest)
         == Ok(TrimStartStr(params[k], CODE_KEY))
  {
    var q := JoinWith(params, '&');
    var target := path + "?" + q;
    TargetParts(path, params);
    var line := meth + " " + target + " " + version;
    LineParts(meth, target, version, rest);
    RequestText(meth, path, q, version, rest);
    CallbackCodeSteps(line + "\r\n" + rest, line, target, q, params, k);
  }

  /** The request target "<path>?<query>" is one word whose query splits into the parameters. */
  lemma TargetParts(path: string, params: seq<string>)
    requires NoWhitespace(path) && '?' !in path
    requires |params| >= 1
    requires forall i :: 0 <= i < |params| ==> NoWhitespace(params[i]) && '?' !in params[i] && '&' !in params[i]
    ensures var q := JoinWith(params, '&');
            var target := path + "?" + q;
            && target != [] && NoWhitespace(target)
            && |Split(target, '?')| >= 2 && Split(target, '?')[1] == q
            && Split(q, '&') == params
  {
    var q := JoinWith(params, '&');
    QueryText(params);
    NoWhitespaceConcat(path, "?");
    NoWhitespaceConcat(path + "?", q);
    SplitTwo(path, '?', q);
    JoinSplit(params, '&');
  }

  /** The first line of the request and its second word. */
  lemma LineParts(meth: string, target: string, version: string, rest: string)
    requires meth != [] && NoWhitespace(meth) && target != [] && NoWhitespace(target)
    requires version != [] && NoWhitespace(version)
    ensures var line := meth + " " + target + " " + version;
            && FirstLine(line + "\r\n" + rest) == Some(line)
            && |Words(line)| >= 2 && Words(line)[1] == target
  {
    WordsOfRequestLine(meth, target, version);
    FirstLineOf(meth + " " + target + " " + version, rest);
  }

  lemma RequestText(meth: string, path: string, q: string, version: string, rest: string)
    ensures meth + " " + path + "?" + q + " " + version + "\r\n" + rest
         == (meth + " " + (path + "?" + q) + " " + version) + "\r\n" + rest
    ensures path + "?" + q == path + ['?'] + q
  {
  }

  /** CallbackCode, one step at a time. */
  lemma CallbackCodeSteps(req: string, line: string, target: string, q: string, params: seq<string>, k: nat)
    requires FirstLine(req) == Some(line)
    requires |Words(line)| >= 2 && Words(line)[1] == target
    requires |Split(target, '?')| >= 2 && Split(target, '?')[1] == q
    requires Split(q, '&') == params
    requires k < |params| && StartsWith(params[k], CODE_KEY)
    requires forall j :: 0 <= j < k ==> !StartsWith(params[j], CODE_KEY)
    ensures CallbackCode(req) == Ok(TrimStartStr(params[k], CODE_KEY))
  {
    assert FirstCodeIndex(params) == k;
  }

  /** A query joined from whitespace-free parameters without '?' is one whitespace-free word
      without '?'. */
  lemma QueryText(params: seq<string>)
    requires |params| >= 1
    requires forall i :: 0 <= i < |params| ==> NoWhitespace(params[i]) && '?' !in params[i]
    ensures NoWhitespace(JoinWith(params, '&')) && '?' !in JoinWith(params, '&')
  {
    var q := JoinWith(params, '&');
    JoinWithChars(params, '&');
    forall j | 0 <= j < |q| ensures !IsWhitespace(q[j]) && q[j] != '?' {
      var c := q[j];
      assert c in q;
      if c != '&' {
        var i :| 0 <= i < |params| && c in params[i];
        var m :| 0 <= m < |params[i]| && params[i][m] == c;
      }
    }
  }

  /** The words of a request line with three whitespace-free parts. */
  lemma WordsOfRequestLine(meth: string, target: string, version: string)
    requires meth != [] && NoWhitespace(meth) && target != [] && NoWhitespace(target)
    requires version != [] && NoWhitespace(version)
    ensures var line := meth + " " + target + " " + version;
            Words(line) == [meth, target] + Words(version) && '\n' !in line
  {
    var tail := target + [' '] + version;
    SpacedRegroup(meth, target, version);
    WordsCons(meth, ' ', tail);
    WordsCons(target, ' ', version);
    Seqs.ConsTwo(meth, target, Words(version));
    LineNoNewline(meth, target, version);
  }

  lemma SpacedRegroup(a: string, b: string, c: string)
    ensures a + " " + b + " " + c == a + [' '] + (b + [' '] + c)
  {
  }

  lemma LineNoNewline(meth: string, target: string, version: string)
    requires NoWhitespace(meth) && NoWhitespace(target) && NoWhitespace(version)
    ensures '\n' !in meth + " " + target + " " + version
  {
    NoNewline(meth);
    NoNewline(target);
    NoNewline(version);
  }

  lemma NoNewline(s: string)
    requires NoWhitespace(s)
    ensures '\n' !in s
  {
  }

  /** The first line of a request whose first line feed follows a carriage return. */
  lemma FirstLineOf(line: string, rest: string)
    requires '\n' !in line
    ensures FirstLine(line + "\r\n" + rest) == Some(line)
  {
    var req := line + "\r\n" + rest;
    assert req[|line|] == '\r' && req[|line| + 1] == '\n';
    assert forall j :: 0 <= j < |line| ==> req[j] == line[j];
    assert IndexOf(req, '\n') == |line| + 1;
    assert req[..|line| + 1][..|line|] == line;
  }

  /** The first code parameter wins: the request line
      "GET /callback?state=x&code=abc&code=d HTTP/1.1" gives "abc". */
  lemma CallbackCodeFirstWins()
    ensures CallbackCode("GET" + " " + "/callback" + "?" + "state=x&code=abc&code=d" + " " + "HTTP/1.1"
                         + "\r\n" + "Host: 127.0.0.1:18492\r\n") == Ok("abc")
  {
    var params := ["state=x", "code=abc", "code=d"];
    ExampleWords();
    ExampleParams(params);
    ExampleRequest(params);
    CallbackCodeOfRequest("GET", "/callback", params, "HTTP/1.1", "Host: 127.0.0.1:18492\r\n", 1);
  }

  lemma ExampleWords()
    ensures NoWhitespace("GET") && NoWhitespace("/callback") && '?' !in "/callback" && NoWhitespace("HTTP/1.1")
  {
  }

  lemma ExampleParams(params: seq<string>)
    requires params == ["state=x", "code=abc", "code=d"]
    ensures forall i :: 0 <= i < |params| ==> NoWhitespace(params[i]) && '?' !in params[i] && '&' !in params[i]
    ensures !StartsWith(params[0], CODE_KEY) && StartsWith(params[1], CODE_KEY)
    ensures TrimStartStr(params[1], CODE_KEY) == "abc"
  {
    assert params[0][0] != CODE_KEY[0];
    assert params[1][5..] == "abc";
  }

  lemma ExampleRequest(params: seq<string>)
    requires params == ["state=x", "code=abc", "code=d"]
    ensures "GET" + " " + "/callback" + "?" + "state=x&code=abc&code=d" + " " + "HTTP/1.1"
            + "\r\n" + "Host: 127.0.0.1:18492\r\n"
         == "GET" + " " + "/callback" + "?" + JoinWith(params, '&') + " " + "HTTP/1.1"
            + "\r\n" + "Host: 127.0.0.1:18492\r\n"
  {
    ExampleJoin(params);
  }

  lemma ExampleJoin(params: seq<string>)
    requires params == ["state=x", "code=abc", "code=d"]
    ensures JoinWith(params, '&') == "state=x&code=abc&code=d"
  {
    assert params[1..] == ["code=abc", "code=d"] && params[1..][1..] == ["code=d"];
    assert JoinWith(params[1..], '&') == "code=abc" + ['&'] + "code=d";
    assert "state=x&code=abc&code=d" == "state=x" + ['&'] + ("code=abc" + ['&'] + "code=d");
  }

  /** Why listening for the callback stopped, or the request text it read. */
  datatype ListenOutcome =
    | Request(text: string)
    | BindFailed(msg: string)
    | AcceptTimedOut
    | AcceptFailed(msg: string)
    | ReadFailed(msg: string)

  /** `listen_callback`: the listener's failures, each with its own message, or the code. */
  function ListenCallback(o: ListenOutcome): (r: Result<string>)
    ensures o.Request? ==> r == CallbackCode(o.text)
    ensures o.BindFailed? ==> r == Err("bind: " + o.msg)
    ensures o.AcceptTimedOut? ==> r == Err("auth timeout")
    ensures o.AcceptFailed? ==> r == Err("accept: " + o.msg)
    ensures o.ReadFailed? ==> r == Err("read: " + o.msg)
  {
    match o
    case Request(text) => CallbackCode(text)
    case BindFailed(e) => Err("bind: " + e)
    case AcceptTimedOut => Err("auth timeout")
    case AcceptFailed(e) => Err("accept: " + e)
    case ReadFailed(e) => Err("read: " + e)
  }

  // ---------------------------------------------------------------- authorize

  /** The query parameters of the authorization request, in the order the URL's format string
      writes them; the scopes go in unencoded, spaces included. */
  function AuthorizeParams(clientId: string, challenge: string): seq<string>
  {
    ["client_id=" + clientId, "response_type=code", "redirect_uri=" + REDIRECT,
     "code_challenge=" + challenge, "code_challenge_method=S256", "scope=" + SCOPES]
  }

  /** The authorization request URL: the endpoint, '?', and the parameters joined by '&'. */
  function AuthorizeUrl(clientId: string, challenge: string): string
  {
    AUTH_URL + "?" + JoinWith(AuthorizeParams(clientId, challenge), '&')
  }

  /** For a client id and challenge free of '&' and '?', the URL reads back as the authorize
      endpoint with exactly those parameters, the S256 method and the loopback redirect
      among them. */
  lemma AuthorizeUrlParams(clientId: string, challenge: string)
    requires '&' !in clientId && '?' !in clientId && '&' !in challenge && '?' !in challenge
    ensures var parts := Split(AuthorizeUrl(clientId, challenge), '?');
            && |parts| == 2 && parts[0] == AUTH_URL
            && Split(parts[1], '&') == AuthorizeParams(clientId, challenge)
  {
    var ps := AuthorizeParams(clientId, challenge);
    ParamsFree(clientId, challenge);
    var q := JoinWith(ps, '&');
    QueryFree(ps);
    AuthEndpointFree();
    SplitTwo(AUTH_URL, '?', q);
    JoinSplit(ps, '&');
  }

  lemma AuthEndpointFree()
    ensures '?' !in AUTH_URL
  {
  }

  lemma ConstantsFree()
    ensures '&' !in REDIRECT && '?' !in REDIRECT && '&' !in SCOPES && '?' !in SCOPES
  {
    RedirectFree();
    WordFree("playlist-read-private");
    WordFree(" ");
    WordFree("playlist-read-collaborative");
    WordFree("user-library-read");
  }

  lemma RedirectFree()
    ensures '&' !in REDIRECT && '?' !in REDIRECT
  {
    assert REDIRECT == "http://127.0.0.1:18492" + "/callback";
    WordFree("http://127.0.0.1:18492");
    WordFree("/callback");
  }

  /** A piece made of unreserved characters, colons, slashes and spaces has neither '&' nor '?'. */
  lemma WordFree(w: string)
    requires forall i :: 0 <= i < |w| ==> IsUnreserved(w[i]) || w[i] == ':' || w[i] == '/' || w[i] == ' '
    ensures '&' !in w && '?' !in w
  {
  }

  lemma ParamsFree(clientId: string, challenge: string)
    requires '&' !in clientId && '?' !in clientId && '&' !in challenge && '?' !in challenge
    ensures var ps := AuthorizeParams(clientId, challenge);
            forall i :: 0 <= i < |ps| ==> '&' !in ps[i] && '?' !in ps[i]
  {
    ConstantsFree();
  }

  /** A query joined from pieces without '?' has no '?'. */
  lemma QueryFree(ps: seq<string>)
    requires |ps| >= 1 && forall i :: 0 <= i < |ps| ==> '?' !in ps[i]
    ensures '?' !in JoinWith(ps, '&')
  {
    JoinWithChars(ps, '&');
  }

  /** The form posted to the token endpoint. */
  function TokenForm(code: string, clientId: string, verifier: string): seq<(string, string)>
  {
    [("grant_type", "authorization_code"), ("code", code), ("redirect_uri", REDIRECT),
     ("client_id", clientId), ("code_verifier", verifier)]
  }

  /** The stored session: no refresh token means "", no display name means "spotify user". */
  function MakeTokens(tr: TokenRes, pr: ProfileRes): (t: Tokens)
    ensures t.accessToken == tr.accessToken
    ensures t.refreshToken == if tr.refreshToken.Some? then tr.refreshToken.value else ""
    ensures t.displayName == if pr.displayName.Some? then pr.displayName.value else "spotify user"
  {
    Tokens(tr.accessToken, tr.refreshToken.GetOr(""), pr.displayName.GetOr("spotify user"))
  }

  /** `authorize`. `picks` are the verifier's random draws, `challengeOf` is the SHA-256 and
      base64url challenge of a verifier, `browser` is what the listener receives once the
      browser has opened a URL, `tokenNet` answers a posted token form and `profileNet`
      answers `/me` for a bearer token. */
  function Authorize(
    clientId: string,
    picks: seq<nat>,
    challengeOf: string -> string,
    browser: string -> ListenOutcome,
    tokenNet: seq<(string, string)> -> HttpOutcome<TokenRes>,
    profileNet: string -> HttpOutcome<ProfileRes>): (r: Result<Tokens>)
    requires ValidPicks(picks)
    // the callback's failure is the sign-in's failure
    ensures var v := GenVerifier(picks);
            var code := ListenCallback(browser(AuthorizeUrl(clientId, challengeOf(v))));
            code.Err? ==> r == Err(code.error)
    // on success the token was obtained for the delivered code with the verifier whose
    // challenge went into the URL, and the profile was read with that token
    ensures var v := GenVerifier(picks);
            var code := ListenCallback(browser(AuthorizeUrl(clientId, challengeOf(v))));
            r.Ok? ==> && code.Ok?
                      && var tr := tokenNet(TokenForm(code.value, clientId, v));
                      && tr.Body?
                      && profileNet(tr.value.accessToken).Body?
                      && r.value == MakeTokens(tr.value, profileNet(tr.value.accessToken).value)
    // once the code is delivered, each step's failure is reported with its own prefix, and
    // the sign-in succeeds exactly when both the token and the profile are read
    ensures var v := GenVerifier(picks);
            var code := ListenCallback(browser(AuthorizeUrl(clientId, challengeOf(v))));
            code.Ok? ==>
              var tr := tokenNet(TokenForm(code.value, clientId, v));
              && (tr.RequestFailed? ==> r == Err("token req: " + tr.msg))
              && (tr.DecodeFailed? ==> r == Err("token parse: " + tr.msg))
              && (tr.Body? ==>
                    var pr := profileNet(tr.value.accessToken);
                    && (pr.RequestFailed? ==> r == Err("profile req: " + pr.msg))
                    && (pr.DecodeFailed? ==> r == Err("profile parse: " + pr.msg))
                    && (pr.Body? ==> r == Ok(MakeTokens(tr.value, pr.value))))
  {
    var verifier := GenVerifier(picks);
    var challenge := challengeOf(verifier);
    match ListenCallback(browser(AuthorizeUrl(clientId, challenge)))
    case Err(e) => Err(e)
    case Ok(code) =>
      match Fetch(tokenNet(TokenForm(code, clientId, verifier)), "token ")
      case Err(e) => Err(e)
      case Ok(tr) =>
        match Fetch(profileNet(tr.accessToken), "profile ")
        case Err(e) => Err(e)
        case Ok(pr) => Ok(MakeTokens(tr, pr))
  }
}
