/** The signed session token of the administrator: login, and who a token speaks for at what time. */
module Session {
  import opened Bytes
  import opened Options
  import opened Base64Url

  const TTL := 12 * 60 * 60

  /** The environment variables as they are set; an unset one is empty. */
  datatype Environment = Environment(username: string, passwordHash: string, secret: string)

  datatype Credentials = Credentials(username: string, passwordHash: string, secret: string)

  /** What a payload decodes to: an object (with the fields read from it), another JSON value, or no JSON. */
  datatype Json = Object(user: Option<string>, expires: Expiry) | NoObject | NoJson

  /** The expiry field: absent, a number, an infinite one, or something that is none. */
  datatype Expiry = Absent | At(time: int) | Infinite | NotANumber

  /** The digest of a password, the keyed digest of a payload, and JSON: functions the model does not look into. */
  datatype Primitives = Primitives(
    passwordDigest: string -> string,
    mac: (string, string) -> seq<byte>,
    dump: (string, int, string) -> seq<byte>,
    load: seq<byte> -> Json)

  datatype Created = Token(token: string) | NotConfigured

  datatype Login = LoggedIn(token: string) | WrongCredentials | Unconfigured | Error

  datatype Read = SignedIn(user: string) | Nobody | Crash

  datatype Admission = Admitted(user: string) | SessionRequired | Unavailable | Broken

  // ---- text ---------------------------------------------------------------------------

  /** What str.strip removes. */
  predicate Blank(c: char) {
    || c == ' ' || '\t' <= c <= '\r' || '\U{1C}' <= c <= '\U{1F}'
    || c == '\U{85}' || c == '\U{A0}' || c == '\U{1680}' || '\U{2000}' <= c <= '\U{200A}'
    || c == '\U{2028}' || c == '\U{2029}' || c == '\U{202F}' || c == '\U{205F}' || c == '\U{3000}'
  }

  function Strip(s: string): string {
    StripBack(StripFront(s))
  }

  function StripFront(s: string): string {
    if s != "" && Blank(s[0]) then StripFront(s[1..]) else s
  }

  function StripBack(s: string): string {
    if s != "" && Blank(s[|s| - 1]) then StripBack(s[..|s| - 1]) else s
  }

  lemma AsciiBlanks(c: char)
    requires c < '\U{80}'
    ensures Blank(c) <==> c in " \t\n\r\U{0B}\U{0C}\U{1C}\U{1D}\U{1E}\U{1F}"
  {
  }

  predicate AllBlank(s: string) {
    forall c :: c in s ==> Blank(c)
  }

  /** What is left begins and ends with no white space, and nothing else is taken off. */
  lemma StripMeaning(s: string) returns (front: string, back: string)
    ensures s == front + Strip(s) + back && AllBlank(front) && AllBlank(back)
    ensures Strip(s) != "" ==> !Blank(Strip(s)[0]) && !Blank(Strip(s)[|Strip(s)| - 1])
  {
    front := FrontTaken(s);
    back := BackTaken(StripFront(s));
  }

  lemma {:induction false} FrontTaken(s: string) returns (front: string)
    ensures s == front + StripFront(s) && AllBlank(front)
    ensures StripFront(s) != "" ==> !Blank(StripFront(s)[0])
  {
    front := "";
    if s != "" && Blank(s[0]) {
      var more := FrontTaken(s[1..]);
      front := [s[0]] + more;
      assert s == [s[0]] + s[1..];
    }
  }

  lemma {:induction false} BackTaken(s: string) returns (back: string)
    ensures s == StripBack(s) + back && AllBlank(back)
    ensures StripBack(s) != "" ==> !Blank(StripBack(s)[|StripBack(s)| - 1])
  {
    back := "";
    if s != "" && Blank(s[|s| - 1]) {
      var more := BackTaken(s[..|s| - 1]);
      back := more + [s[|s| - 1]];
      assert s == s[..|s| - 1] + [s[|s| - 1]];
    }
  }

  function Lower(s: string): string {
    seq(|s|, i requires 0 <= i < |s| => if 'A' <= s[i] <= 'Z' then (s[i] as int + 32) as char else s[i])
  }

  /** Capital letters become the small ones of the same place in the alphabet. */
  lemma LowerMeaning(s: string, i: nat)
    requires i < |s|
    ensures |Lower(s)| == |s|
    ensures Lower(s)[i] == if 'A' <= s[i] <= 'Z' then 'a' + (s[i] - 'A') else s[i]
  {
  }

  predicate Ascii(s: string) {
    forall c :: c in s ==> c < '\U{80}'
  }

  /** The text before and behind the first dot. */
  function SplitAtDot(s: string): Option<(string, string)> {
    if s == "" then None
    else if s[0] == '.' then Some(("", s[1..]))
    else
      var rest := SplitAtDot(s[1..]);
      if rest.None? then None else Some(([s[0]] + rest.value.0, rest.value.1))
  }

  // ---- the token functions ------------------------------------------------------------

  /** None: authentication is not configured. */
  function Configured(env: Environment): Option<Credentials> {
    var username, hash := Strip(env.username), Lower(Strip(env.passwordHash));
    if username == "" || |hash| != 64 || env.secret == "" then None else Some(Credentials(username, hash, env.secret))
  }

  function Signature(f: Primitives, payload: string, secret: string): string {
    Cut(Encode(f.mac(payload, secret)))
  }

  function CreateSession(f: Primitives, env: Environment, username: string, now: int, nonce: string): Created {
    match Configured(env)
    case None => NotConfigured
    case Some(c) =>
      var payload := Cut(Encode(f.dump(username, now + TTL, nonce)));
      Token(payload + "." + Signature(f, payload, c.secret))
  }

  function SessionUsername(f: Primitives, env: Environment, token: Option<string>, now: int): Read {
    if token.None? || token.value == "" || Configured(env).None? || SplitAtDot(token.value).None? then Nobody
    else
      var c := Configured(env).value;
      var (payload, signature) := SplitAtDot(token.value).value;
      if !Ascii(payload) || signature != Signature(f, payload, c.secret) then Nobody
      else
        match Decode(Refill(payload))
        case None => Nobody
        case Some(raw) => Accept(f.load(raw), c, now)
  }

  function Accept(data: Json, c: Credentials, now: int): Read {
    match data
    case NoJson => Nobody
    case NoObject => Crash
    case Object(user, expires) =>
      if user != Some(c.username) then Nobody
      else
        match expires
        case NotANumber => Nobody
        case Infinite => Crash
        case Absent => if 0 <= now then Nobody else SignedIn(c.username)
        case At(t) => if t <= now then Nobody else SignedIn(c.username)
  }

  /** Texts are compared in constant time, which fails for text outside ASCII. */
  function Authenticate(f: Primitives, c: Credentials, username: string, password: string): Option<bool> {
    if !Ascii(Strip(username)) || !Ascii(c.username) then None
    else if Strip(username) != c.username then Some(false)
    else if !Ascii(f.passwordDigest(password)) || !Ascii(c.passwordHash) then None
    else Some(f.passwordDigest(password) == c.passwordHash)
  }

  function CreateAdminSession(f: Primitives, env: Environment, username: string, password: string, now: int,
      nonce: string): Login {
    match Configured(env)
    case None => Unconfigured
    case Some(c) =>
      match Authenticate(f, c, username, password)
      case None => Error
      case Some(ok) =>
        if !ok then WrongCredentials
        else
          match CreateSession(f, env, Strip(username), now, nonce)
          case NotConfigured => Unconfigured
          case Token(t) => LoggedIn(t)
  }

  function RequireAdmin(f: Primitives, env: Environment, cookie: Option<string>, now: int): Admission {
    if Configured(env).None? then Unavailable
    else
      match SessionUsername(f, env, cookie, now)
      case Nobody => SessionRequired
      case Crash => Broken
      case SignedIn(user) => if user == "" then SessionRequired else Admitted(user)
  }

  // ---- what a token is worth ----------------------------------------------------------

  /** Reading what was dumped gives the user and the expiry back. */
  ghost predicate JsonFaithful(f: Primitives) {
    forall u, t, n :: f.load(f.dump(u, t, n)) == Object(Some(u), At(t))
  }

  lemma {:induction false} SplitAtFirstDot(a: string, b: string)
    requires '.' !in a
    ensures SplitAtDot(a + "." + b) == Some((a, b))
  {
    var s := a + "." + b;
    if a == "" {
      assert s == "." + b;
    } else {
      assert s[1..] == a[1..] + "." + b;
      SplitAtFirstDot(a[1..], b);
      assert a == [a[0]] + a[1..];
    }
  }

  lemma {:induction false} SplitJoins(s: string)
    requires SplitAtDot(s).Some?
    ensures var (a, b) := SplitAtDot(s).value; s == a + "." + b && '.' !in a
  {
    if s[0] != '.' {
      SplitJoins(s[1..]);
      assert s == [s[0]] + s[1..];
    }
  }

  /**
   A token speaks for the user it was made for, if that is the configured one, from the start until it
   expires and no longer.
   */
  lemma TokenRoundTrip(f: Primitives, env: Environment, username: string, made: int, nonce: string, now: int)
    requires JsonFaithful(f)
    ensures match CreateSession(f, env, username, made, nonce)
      case NotConfigured => Configured(env).None?
      case Token(t) =>
        && Configured(env).Some?
        && SessionUsername(f, env, Some(t), now)
           == if username == Configured(env).value.username && now < made + 43200 then SignedIn(username) else Nobody
  {
    if Configured(env).Some? {
      var c := Configured(env).value;
      var body := f.dump(username, made + TTL, nonce);
      var payload := Cut(Encode(body));
      CutAndRefill(body);
      RoundTrip(body);
      SplitAtFirstDot(payload, Signature(f, payload, c.secret));
      DigitsAreAscii(payload);
    }
  }

  lemma DigitsAreAscii(s: string)
    requires forall c :: c in s ==> Value(c).Some?
    ensures Ascii(s)
  {
  }

  /** A signature is the keyed digest of the payload, and nothing else reads back as it. */
  lemma SignatureMeaning(f: Primitives, payload: string, secret: string)
    ensures Decode(Refill(Signature(f, payload, secret))) == Some(f.mac(payload, secret))
  {
    RoundTrip(f.mac(payload, secret));
  }

  /** So over one payload a single digest is accepted. */
  lemma OneDigestAccepted(f: Primitives, env: Environment, payload: string, digest: seq<byte>, now: int)
    requires '.' !in payload
    requires SessionUsername(f, env, Some(payload + "." + Cut(Encode(digest))), now) != Nobody
    ensures Configured(env).Some? && digest == f.mac(payload, env.secret)
  {
    SplitAtFirstDot(payload, Cut(Encode(digest)));
    SignatureMeaning(f, payload, env.secret);
    RoundTrip(digest);
  }

  /**
   Whoever is signed in is the configured user, holds the right signature of the payload, and the
   payload names the user and a later time.
   */
  lemma SignedInSound(f: Primitives, env: Environment, token: Option<string>, now: int)
    requires now >= 0 && SessionUsername(f, env, token, now).SignedIn?
    ensures Configured(env).Some? && token.Some?
    ensures var c := Configured(env).value; var user := SessionUsername(f, env, token, now).user;
      && user == c.username && user != ""
      && exists payload: string, raw, t :: '.' !in payload
           && token.value == payload + "." + Signature(f, payload, c.secret)
           && Decode(Refill(payload)) == Some(raw) && f.load(raw) == Object(Some(user), At(t)) && now < t
    ensures exists payload: string, signature: string ::
      && '.' !in payload && token.value == payload + "." + signature
      && Decode(Refill(signature)) == Some(f.mac(payload, env.secret))
  {
    SignatureMeaning(f, SplitAtDot(token.value).value.0, env.secret);
    var c := Configured(env).value;
    SplitJoins(token.value);
    var (payload, signature) := SplitAtDot(token.value).value;
    var raw := Decode(Refill(payload)).value;
    assert f.load(raw).expires.At?;
  }

  /**
   A login with the right credentials is admitted at once and until the session expires; no other login
   gets a token.
   */
  lemma LoginAdmits(f: Primitives, env: Environment, username: string, password: string, made: int, nonce: string,
      now: int)
    requires JsonFaithful(f)
    ensures match CreateAdminSession(f, env, username, password, made, nonce)
      case LoggedIn(t) =>
        && Strip(username) == Strip(env.username) && f.passwordDigest(password) == Lower(Strip(env.passwordHash))
        && RequireAdmin(f, env, Some(t), now)
           == if now < made + 43200 then Admitted(Strip(username)) else SessionRequired
      case WrongCredentials =>
        || Strip(username) != Strip(env.username)
        || f.passwordDigest(password) != Lower(Strip(env.passwordHash))
      case Unconfigured => forall token, at :: RequireAdmin(f, env, token, at) == Unavailable
      case Error =>
        || !Ascii(Strip(username)) || !Ascii(Strip(env.username))
        || !Ascii(f.passwordDigest(password)) || !Ascii(Lower(Strip(env.passwordHash)))
    ensures CreateAdminSession(f, env, username, password, made, nonce).Unconfigured?
      <==> Strip(env.username) == "" || |Strip(env.passwordHash)| != 64 || env.secret == ""
  {
    TokenRoundTrip(f, env, Strip(username), made, nonce, now);
    if Configured(env).Some? {
      CredentialsDecide(f, env, username, password);
    }
  }

  lemma CredentialsDecide(f: Primitives, env: Environment, username: string, password: string)
    requires Configured(env).Some?
    ensures Configured(env).value.username == Strip(env.username) != ""
    ensures match Authenticate(f, Configured(env).value, username, password)
      case Some(ok) =>
        ok <==> Strip(username) == Strip(env.username)
                && f.passwordDigest(password) == Lower(Strip(env.passwordHash))
      case None =>
        || !Ascii(Strip(username)) || !Ascii(Strip(env.username))
        || !Ascii(f.passwordDigest(password)) || !Ascii(Lower(Strip(env.passwordHash)))
  {
  }
}
