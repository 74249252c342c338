/** Keeping the stored login fresh: a short-lived access token (PAT) is minted from a JWT, the JWT
    from a refresh token (section 6 of RFC 6749, section 2 of RFC 8693), and what is minted goes
    back to the one of two stores it came from. */
module OAuth {
  import opened Bytes

  const SKEW: int := 60
  const PAT_LIFETIME: int := 3600
  const JWT_LIFETIME: int := 300

  datatype Credentials = Credentials(pat: string, patExpiry: int, jwt: string, jwtExpiry: int,
                                     refresh: string, refreshExpiry: int, workspace: string)

  /** What the stores keep. */
  datatype Item = Item(authToken: string, workspace: string, username: string, patExpiry: int, jwt: string,
      jwtExpiry: int,
                       refresh: string, refreshExpiry: int)

  function ToKeychain(c: Credentials): Item {
    Item(c.pat, c.workspace, "", c.patExpiry, c.jwt, c.jwtExpiry, c.refresh, c.refreshExpiry)
  }

  function FromKeychain(i: Item): Credentials {
    Credentials(i.authToken, i.patExpiry, i.jwt, i.jwtExpiry, i.refresh, i.refreshExpiry, i.workspace)
  }

  predicate IsOAuthManaged(c: Credentials) {
    c.refresh != ""
  }

  /** The two stores, and the refresh token the authorization server would still accept. */
  datatype System = System(keychain: Option<Item>, file: Option<Item>, live: string)

  /** A token endpoint's answer to an exchange, with the time it came. */
  datatype Grant = Grant(token: string, expiresIn: int, at: int)

  /** Its answer to a refresh; `claim` is the expiry the JWT itself carries. */
  datatype Response = Response(accessToken: string, refreshToken: string, expiresIn: int, claim: Option<int>)

  /** All a call cannot control: the clock, what the servers answer if they do, which store
      operations fail. */
  datatype Weather = Weather(now: int, later: int, keychainFails: bool, fileFails: bool, first: Option<Grant>,
                             refresh: Option<Response>, second: Option<Grant>, saveFails: bool, clearFails: bool)

  datatype Outcome = Fresh(creds: Credentials) | NotLoggedIn | LoginRequired | Failed

  datatype Loaded = Unreadable | Nothing | Found(creds: Credentials, fromKeychain: bool)

  /** `loadFrom`: a broken keychain is an error, an unreadable file counts as empty. */
  function LoadFrom(y: System, w: Weather): Loaded {
    if w.keychainFails then Unreadable
    else if y.keychain.Some? then Found(FromKeychain(y.keychain.value), true)
    else if w.fileFails || y.file.None? then Nothing
    else Found(FromKeychain(y.file.value), false)
  }

  /** `SaveTo` and `SaveExclusive`: the target first, then the other store is cleared if possible. */
  function SaveTo(y: System, toKeychain: bool, c: Credentials, w: Weather): (System, bool) {
    if c.pat == "" || w.saveFails then (y, false)
    else if toKeychain then (y.(keychain := Some(ToKeychain(c)), file := if w.clearFails then y.file else None), true)
    else (y.(file := Some(ToKeychain(c)), keychain := if w.clearFails then y.keychain else None), true)
  }

  /** `exchangeJWTForPAT`: the token and its expiry. */
  function Exchange(g: Option<Grant>): Option<(string, int)> {
    match g
    case None => None
    case Some(a) =>
      if a.token == "" then None else Some((a.token, a.at + if a.expiresIn > 0 then a.expiresIn else PAT_LIFETIME))
  }

  function JWTExpiry(r: Response, now: int): int {
    if r.expiresIn > 0 then now + r.expiresIn else if r.claim.Some? then r.claim.value else now + JWT_LIFETIME
  }

  predicate PATLive(c: Credentials, now: int) {
    c.pat != "" && now + SKEW < c.patExpiry
  }

  predicate JWTLive(c: Credentials, now: int) {
    c.jwt != "" && now + SKEW < c.jwtExpiry
  }

  /** The refresh grant: accepted for the one live token, which the server may replace. */
  function Refresh(y: System, token: string, w: Weather): (System, Option<Response>) {
    if w.refresh.None? || token != y.live then (y, None)
    else (y.(live := if w.refresh.value.refreshToken != "" then w.refresh.value.refreshToken else y.live), w.refresh)
  }

  function Persist(y: System, toKeychain: bool, c: Credentials, w: Weather): (System, Outcome) {
    var (z, ok) := SaveTo(y, toKeychain, c, w);
    (z, if ok then Fresh(c) else Failed)
  }

  function FullRefresh(y: System, c: Credentials, toKeychain: bool, w: Weather): (System, Outcome) {
    var (z, r) := Refresh(y, c.refresh, w);
    if r.None? then (z, LoginRequired)
    else
      var d := c.(jwt := r.value.accessToken, jwtExpiry := JWTExpiry(r.value, w.later),
                  refresh := if r.value.refreshToken != "" then r.value.refreshToken else c.refresh);
      var pat := Exchange(w.second);
      if pat.None? then (z, Failed)
      else Persist(z, toKeychain, d.(pat := pat.value.0, patExpiry := pat.value.1), w)
  }

  function EnsureFresh(y: System, w: Weather): (System, Outcome) {
    match LoadFrom(y, w)
    case Unreadable => (y, Failed)
    case Nothing => (y, NotLoggedIn)
    case Found(c, fromKeychain) =>
      if !IsOAuthManaged(c) then (y, NotLoggedIn)
      else if PATLive(c, w.now) then (y, Fresh(c))
      else if JWTLive(c, w.now) && Exchange(w.first).Some? then
        var pat := Exchange(w.first).value;
        Persist(y, fromKeychain, c.(pat := pat.0, patExpiry := pat.1), w)
      else FullRefresh(y, c, fromKeychain, w)
  }

  // ----- one call ----------------------------------------------------------------------------

  /** The item a later load finds when the stores can be read. */
  function Stored(y: System): Option<Item> {
    if y.keychain.Some? then y.keychain else y.file
  }

  predicate Minted(c: Credentials, w: Weather) {
    (w.first.Some? && c.pat == w.first.value.token) || (w.second.Some? && c.pat == w.second.value.token)
  }

  /** A call that succeeds returns a token that lasts beyond the next minute or was minted just now,
      and what it returns is what a later load finds, all seven fields. A call that fails leaves
      both stores as they were. */
  lemma FreshIsStored(y: System, w: Weather)
    ensures var (z, r) := EnsureFresh(y, w);
            && (r.Fresh? ==>
                && r.creds.pat != "" && (w.now + SKEW < r.creds.patExpiry || Minted(r.creds, w))
                && Stored(z).Some? && FromKeychain(Stored(z).value) == r.creds)
            && (!r.Fresh? ==> z.keychain == y.keychain && z.file == y.file)
  {
    var load := LoadFrom(y, w);
    if load.Found? && !load.fromKeychain {
      assert y.keychain.None?;
    }
  }

  /** Where the tokens come from. A live PAT is returned as it is; a live JWT is exchanged and
      nothing but the PAT changes; otherwise the refresh token buys a new JWT, that JWT buys the PAT,
      and the refresh token is the one the server accepts now. */
  lemma FreshTokensBelongTogether(y: System, w: Weather)
    requires EnsureFresh(y, w).1.Fresh?
    ensures var before, after, z := FromKeychain(Stored(y).value), EnsureFresh(y, w).1.creds, EnsureFresh(y, w).0;
            && (PATLive(before, w.now) ==> after == before && z == y)
            && (!PATLive(before, w.now) && JWTLive(before, w.now) && Exchange(w.first).Some? ==>
                && after == before.(pat := w.first.value.token, patExpiry := after.patExpiry)
                && after.patExpiry > w.first.value.at && z.live == y.live)
            && (!PATLive(before, w.now) && (!JWTLive(before, w.now) || Exchange(w.first).None?) ==>
                && before.refresh == y.live && after.refresh == z.live
                && w.refresh.Some? && after.jwt == w.refresh.value.accessToken
                && w.second.Some? && after.pat == w.second.value.token && after.patExpiry > w.second.value.at)
  {
  }

  /** How long a token lasts: as announced, else as the JWT itself says, else the default. */
  predicate Announced(expiry: int, at: int, expiresIn: int, claim: Option<int>, lifetime: int) {
    && (expiresIn > 0 ==> expiry - at == expiresIn)
    && (expiresIn <= 0 && claim.Some? ==> expiry == claim.value)
    && (expiresIn <= 0 && claim.None? ==> expiry - at == lifetime)
  }

  /** The expiries a successful call returns: kept with the token they belong to, or counted from the
      moment the new token came. */
  lemma ExpiriesAreAnnounced(y: System, w: Weather)
    requires EnsureFresh(y, w).1.Fresh?
    ensures var before, after := FromKeychain(Stored(y).value), EnsureFresh(y, w).1.creds;
            && after.refreshExpiry == before.refreshExpiry
            && (PATLive(before, w.now) ==> after.patExpiry == before.patExpiry && after.jwtExpiry == before.jwtExpiry)
            && (!PATLive(before, w.now) && JWTLive(before, w.now) && Exchange(w.first).Some? ==>
                && Announced(after.patExpiry, w.first.value.at, w.first.value.expiresIn, None, PAT_LIFETIME)
                && after.jwtExpiry == before.jwtExpiry)
            && (!PATLive(before, w.now) && (!JWTLive(before, w.now) || Exchange(w.first).None?) ==>
                && Announced(after.patExpiry, w.second.value.at, w.second.value.expiresIn, None, PAT_LIFETIME)
                && Announced(after.jwtExpiry, w.later, w.refresh.value.expiresIn, w.refresh.value.claim, JWT_LIFETIME))
  {
    FreshTokensBelongTogether(y, w);
  }

  /** No call changes whose login it is. */
  lemma IdentityKept(y: System, w: Weather)
    ensures var z := EnsureFresh(y, w).0;
            && Stored(z).Some? == Stored(y).Some?
            && (Stored(y).Some? ==>
                && Stored(z).value.workspace == Stored(y).value.workspace
                && (IsOAuthManaged(FromKeychain(Stored(z).value)) <==> IsOAuthManaged(FromKeychain(Stored(y).value))))
  {
    var load := LoadFrom(y, w);
    if load.Found? && !load.fromKeychain {
      assert y.keychain.None?;
    }
  }

  /** The user name is not one of the seven fields: a call that saves anything drops it. */
  lemma UsernameKeptIff(y: System, w: Weather)
    requires EnsureFresh(y, w).1.Fresh?
    ensures var before := Stored(y).value;
            var z := EnsureFresh(y, w).0;
            Stored(z).value.username == before.username <==>
            PATLive(FromKeychain(before), w.now) || before.username == ""
  {
    FreshIsStored(y, w);
  }

  /** The user is told to log in first exactly when what the stores show first is no login: an
      unreadable or empty file behind an empty keychain, or a credential set by hand, even one in
      the keychain that hides a login kept in the file. */
  lemma NotLoggedInIff(y: System, w: Weather)
    ensures EnsureFresh(y, w).1 == NotLoggedIn <==>
            && !w.keychainFails
            && (Stored(y).None? || (y.keychain.None? && w.fileFails) || Stored(y).value.refresh == "")
  {
  }

  /** A save succeeds unless there is no token or the store fails, and otherwise changes nothing. What
      was saved is what a later load finds, unless it went to the file while the keychain holds
      something else that could not be cleared. */
  lemma SavedIsLoadedIff(y: System, toKeychain: bool, c: Credentials, w: Weather)
    ensures var (z, ok) := SaveTo(y, toKeychain, c, w);
            && (ok <==> c.pat != "" && !w.saveFails) && (!ok ==> z == y)
            && (ok ==> (Stored(z) == Some(ToKeychain(c)) <==>
                        toKeychain || !w.clearFails || y.keychain.None? || y.keychain == Some(ToKeychain(c))))
  {
  }

  // ----- how a call ends ---------------------------------------------------------------------

  /** A token that is there and lasts more than a minute from now. */
  predicate Lasts(token: string, expiry: int, now: int) {
    token != "" && expiry - now > 60
  }

  /** What the call finds is a login. */
  predicate FindsLogin(y: System, w: Weather) {
    && !w.keychainFails && (y.keychain.Some? || (!w.fileFails && y.file.Some?)) && Stored(y).value.refresh != ""
  }

  predicate Answers(g: Option<Grant>) {
    g.Some? && g.value.token != ""
  }

  /** The PAT has to be replaced and the JWT buys a new one. */
  predicate SpendsJWT(y: System, w: Weather) {
    && FindsLogin(y, w) && !Lasts(Stored(y).value.authToken, Stored(y).value.patExpiry, w.now)
    && Lasts(Stored(y).value.jwt, Stored(y).value.jwtExpiry, w.now) && Answers(w.first)
  }

  /** The PAT has to be replaced and the JWT does not: it goes first. */
  predicate SpendsRefreshToken(y: System, w: Weather) {
    && FindsLogin(y, w) && !Lasts(Stored(y).value.authToken, Stored(y).value.patExpiry, w.now)
    && !(Lasts(Stored(y).value.jwt, Stored(y).value.jwtExpiry, w.now) && Answers(w.first))
  }

  predicate Accepted(y: System, w: Weather) {
    w.refresh.Some? && Stored(y).Some? && Stored(y).value.refresh == y.live
  }

  /** All endings of a call, read off the stores, the clock and the answers. The user has to log in
      again exactly when the refresh token is needed and not accepted; any other failure is for the
      next call to make good. */
  lemma HowACallEnds(y: System, w: Weather)
    ensures var r := EnsureFresh(y, w).1;
            && (r == NotLoggedIn <==> !w.keychainFails && !FindsLogin(y, w))
            && (r == LoginRequired <==> SpendsRefreshToken(y, w) && !Accepted(y, w))
            && (r == Failed <==>
                || w.keychainFails
                || (SpendsJWT(y, w) && w.saveFails)
                || (SpendsRefreshToken(y, w) && Accepted(y, w) && (!Answers(w.second) || w.saveFails)))
            && (r.Fresh? && !SpendsJWT(y, w) && !SpendsRefreshToken(y, w) ==>
                r.creds.pat == Stored(y).value.authToken && r.creds.jwt == Stored(y).value.jwt
                && r.creds.refresh == Stored(y).value.refresh)
  {
  }

  /** What a call saves goes back to the store it came from: a login in the keychain to the keychain,
      where the file is cleared if that works, one in the file to the file. A call that mints nothing
      writes nothing. */
  lemma SavedWhereItCameFrom(y: System, w: Weather)
    ensures var (z, r) := EnsureFresh(y, w);
            if !r.Fresh? || !(SpendsJWT(y, w) || SpendsRefreshToken(y, w)) then
              z.keychain == y.keychain && z.file == y.file
            else if y.keychain.Some? then
              z.keychain == Some(ToKeychain(r.creds)) && z.file == (if w.clearFails then y.file else None)
            else z.keychain.None? && z.file == Some(ToKeychain(r.creds))
  {
  }

  // ----- whole runs --------------------------------------------------------------------------

  function Run(y: System, ws: seq<Weather>): System
    decreases |ws|
  {
    if ws == [] then y else Run(EnsureFresh(y, ws[0]).0, ws[1..])
  }

  lemma {:induction false} RunKeepsIdentity(y: System, ws: seq<Weather>)
    requires Stored(y).Some? && IsOAuthManaged(FromKeychain(Stored(y).value))
    ensures var z := Run(y, ws);
            Stored(z).Some? && Stored(z).value.workspace == Stored(y).value.workspace
                && IsOAuthManaged(FromKeychain(Stored(z).value))
    decreases |ws|
  {
    if ws != [] {
      IdentityKept(y, ws[0]);
      RunKeepsIdentity(EnsureFresh(y, ws[0]).0, ws[1..]);
    }
  }

  /** The stored refresh token is the one the server accepts. */
  predicate InSync(y: System) {
    Stored(y).Some? && Stored(y).value.refresh == y.live
  }

  /** The call gets as far as asking for a new JWT: a login is found, its PAT has expired, and its
      JWT has too or cannot be exchanged. */
  predicate NeedsRefresh(y: System, w: Weather) {
    && !w.keychainFails && (y.keychain.Some? || (!w.fileFails && y.file.Some?))
    && var c := FromKeychain(Stored(y).value);
       IsOAuthManaged(c) && !PATLive(c, w.now) && (!JWTLive(c, w.now) || Exchange(w.first).None?)
  }

  /** The server answers a refresh by replacing the token. */
  predicate Rotates(y: System, w: Weather) {
    w.refresh.Some? && w.refresh.value.refreshToken != "" && w.refresh.value.refreshToken != y.live
  }

  /** A call leaves the login usable unless it asks for a new JWT, the server replaces the refresh
      token, and then the exchange or the save fails: that loses the new token. */
  lemma LoginUsableIff(y: System, w: Weather)
    requires InSync(y)
    ensures InSync(EnsureFresh(y, w).0) <==>
            !(NeedsRefresh(y, w) && Rotates(y, w) && (Exchange(w.second).None? || w.saveFails))
  {
    FreshIsStored(y, w);
  }

  /** A login out of step with the server, its tokens expired. */
  ghost predicate Lost(y: System, now: int) {
    && Stored(y).Some? && Stored(y).value.refresh != y.live && IsOAuthManaged(FromKeychain(Stored(y).value))
    && !PATLive(FromKeychain(Stored(y).value), now) && !JWTLive(FromKeychain(Stored(y).value), now)
  }

  lemma LostStaysLost(y: System, w: Weather, now: int)
    requires Lost(y, now) && now <= w.now
    ensures EnsureFresh(y, w).0 == y && !EnsureFresh(y, w).1.Fresh?
    ensures !w.keychainFails && !w.fileFails ==> EnsureFresh(y, w).1 == LoginRequired
  {
  }

  /** From then on no call ever succeeds, whatever the servers do: the user has to log in again. */
  lemma {:induction false} LostForever(y: System, ws: seq<Weather>, now: int, i: nat)
    requires Lost(y, now) && i < |ws| && forall j :: 0 <= j < |ws| ==> now <= ws[j].now
    ensures Run(y, ws[..i]) == y && !EnsureFresh(Run(y, ws[..i]), ws[i]).1.Fresh?
    decreases |ws|
  {
    if i == 0 {
      LostStaysLost(y, ws[0], now);
    } else {
      LostStaysLost(y, ws[0], now);
      LostForever(y, ws[1..], now, i - 1);
      assert ws[..i][1..] == ws[1..][..i - 1];
    }
  }

  // ----- the session -------------------------------------------------------------------------

  class Session {
    var keychain: Option<Item>
    var file: Option<Item>
    var live: string

    constructor (y: System)
      ensures Contents() == y
    {
      keychain, file, live := y.keychain, y.file, y.live;
    }

    function Contents(): System
      reads this
    {
      System(keychain, file, live)
    }

    method Load(w: Weather) returns (r: Loaded)
      ensures r == LoadFrom(Contents(), w)
    {
      var stores := [true, false];
      for i := 0 to |stores|
        invariant i > 0 ==> !w.keychainFails && keychain.None?
        invariant i > 1 ==> w.fileFails || file.None?
      {
        if stores[i] {
          if w.keychainFails {
            return Unreadable;
          }
          if keychain.Some? {
            return Found(FromKeychain(keychain.value), true);
          }
        } else if !w.fileFails && file.Some? {
          return Found(FromKeychain(file.value), false);
        }
      }
      return Nothing;
    }

    method Save(toKeychain: bool, c: Credentials, w: Weather) returns (ok: bool)
      modifies this
      ensures (Contents(), ok) == SaveTo(old(Contents()), toKeychain, c, w)
    {
      if c.pat == "" || w.saveFails {
        return false;
      }
      if toKeychain {
        keychain := Some(ToKeychain(c));
        file := if w.clearFails then file else None;
      } else {
        file := Some(ToKeychain(c));
        keychain := if w.clearFails then keychain else None;
      }
      return true;
    }

    method EnsureFreshCredentials(w: Weather) returns (r: Outcome)
      modifies this
      ensures (Contents(), r) == EnsureFresh(old(Contents()), w)
    {
      var loaded := Load(w);
      if loaded.Unreadable? {
        return Failed;
      }
      if loaded.Nothing? || !IsOAuthManaged(loaded.creds) {
        return NotLoggedIn;
      }
      var creds := loaded.creds;
      if PATLive(creds, w.now) {
        return Fresh(creds);
      }
      if JWTLive(creds, w.now) {
        var minted := Exchange(w.first);
        if minted.Some? {
          creds := creds.(pat := minted.value.0, patExpiry := minted.value.1);
          var saved := Save(loaded.fromKeychain, creds, w);
          return if saved then Fresh(creds) else Failed;
        }
      }
      if w.refresh.None? || creds.refresh != live {
        return LoginRequired;
      }
      var refreshed := w.refresh.value;
      creds := creds.(jwt := refreshed.accessToken, jwtExpiry := JWTExpiry(refreshed, w.later));
      if refreshed.refreshToken != "" {
        live := refreshed.refreshToken;
        creds := creds.(refresh := refreshed.refreshToken);
      }
      var pat := Exchange(w.second);
      if pat.None? {
        return Failed;
      }
      creds := creds.(pat := pat.value.0, patExpiry := pat.value.1);
      var saved := Save(loaded.fromKeychain, creds, w);
      return if saved then Fresh(creds) else Failed;
    }
  }
}
