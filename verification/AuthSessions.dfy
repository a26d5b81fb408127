/** Native token families: one refresh token and one access token at a time, rotated together, and a
    replayed refresh token revokes its whole family for good. */
module AuthSessions {
  import opened Wrappers
  type Reply<T> = Result<T, AuthError>
  datatype AuthError = InvalidToken | TokenExpired | TokenReused | AccountDisabled | DeviceIsCurrent

  type Id = nat
  type Time = int

  datatype TokenKind = Session | Access | Refresh

  /** A stored token; its key is the digest of the secret, here the secret's identity. */
  datatype TokenRow = TokenRow(
    user: Id, kind: TokenKind, device: Option<string>, family: Option<Id>, revokedAt: Option<Time>, expiresAt: Time)

  /** Generated secrets and family names never repeat: both come from one counter. */
  datatype Tokens = Tokens(rows: map<Id, TokenRow>, active: map<Id, bool>, next: Id, accessTtl: nat, refreshTtl: nat)

  datatype TokenPair = TokenPair(refresh: Id, access: Id)

  predicate IsActive(t: Tokens, user: Id) {
    user in t.active && t.active[user]
  }

  // ---------------------------------------------------------------- bulk statements

  /** Does a bulk revocation of family `f` select the row? `kind` restricts it to one kind. */
  predicate Selects(row: TokenRow, f: Id, kind: Option<TokenKind>) {
    row.family == Some(f) && row.revokedAt.None? && (kind.None? || row.kind == kind.value)
  }

  function RevokeFamily(rows: map<Id, TokenRow>, f: Id, kind: Option<TokenKind>, now: Time): map<Id, TokenRow> {
    map d | d in rows :: if Selects(rows[d], f, kind) then rows[d].(revokedAt := Some(now)) else rows[d]
  }

  function DropExpired(rows: map<Id, TokenRow>, now: Time): map<Id, TokenRow> {
    map d | d in rows && now < rows[d].expiresAt :: rows[d]
  }

  function DropDevice(rows: map<Id, TokenRow>, user: Id, device: string): map<Id, TokenRow> {
    map d | d in rows && !(rows[d].user == user && rows[d].device == Some(device)) :: rows[d]
  }

  function DropUser(rows: map<Id, TokenRow>, user: Id, keep: Option<Id>): map<Id, TokenRow> {
    map d | d in rows && (rows[d].user != user || keep == Some(d)) :: rows[d]
  }

  // ---------------------------------------------------------------- operations

  /** Issue a refresh and an access token of one family. */
  function IssuePair(t: Tokens, user: Id, device: string, family: Id, now: Time): (Tokens, TokenPair) {
    var refresh, access := t.next, t.next + 1;
    (t.(rows := t.rows[refresh := TokenRow(user, Refresh, Some(device), Some(family), None, now + t.refreshTtl)]
                      [access := TokenRow(user, Access, Some(device), Some(family), None, now + t.accessTtl)],
        next := t.next + 2),
     TokenPair(refresh, access))
  }

  /** A native login whose credentials were verified starts a family of its own. */
  function LoginNative(t: Tokens, user: Id, device: string, now: Time): (Tokens, TokenPair) {
    IssuePair(t.(next := t.next + 1), user, device, t.next, now)
  }

  function RefreshPair(t: Tokens, token: Id, device: Option<string>, now: Time): (Tokens, Reply<TokenPair>) {
    if token !in t.rows || t.rows[token].kind != Refresh then (t, Fail(InvalidToken))
    else
      var row := t.rows[token];
      if row.revokedAt.Some? then
        if row.family.Some? then (t.(rows := RevokeFamily(t.rows, row.family.value, None, now)), Fail(TokenReused))
        else (t, Fail(InvalidToken))
      else
        var consumed := t.(rows := t.rows[token := row.(revokedAt := Some(now))]);
        if row.expiresAt <= now then (consumed, Fail(TokenExpired))
        else if !IsActive(t, row.user) then
          (if row.family.Some?
           then consumed.(rows := RevokeFamily(consumed.rows, row.family.value, None, now)) else consumed,
           Fail(AccountDisabled))
        else
          var family := if row.family.Some? then row.family.value else t.next;
          var named := if row.family.Some? then consumed else consumed.(next := t.next + 1);
          var cleared := named.(rows := RevokeFamily(named.rows, family, Some(Access), now));
          var name := if device.Some? then device.value
                      else if row.device.Some? then row.device.value else "unknown-device";
          var (issued, pair) := IssuePair(cleared, row.user, name, family, now);
          (issued, Ok(pair))
  }

  /** Resolve a presented credential to its user. */
  function Authenticate(t: Tokens, token: Id, now: Time): (Tokens, Reply<Id>) {
    if token !in t.rows || t.rows[token].revokedAt.Some? || t.rows[token].kind == Refresh then (t, Fail(InvalidToken))
    else
      var row := t.rows[token];
      if row.expiresAt <= now then (t.(rows := t.rows - {token}), Fail(TokenExpired))
      else if !IsActive(t, row.user) then (t, Fail(AccountDisabled))
      else (t, Ok(row.user))
  }

  function RevokeDevice(t: Tokens, user: Id, device: string, current: Option<Id>): (Tokens, Reply<()>) {
    if current.Some? && current.value in t.rows && t.rows[current.value].device == Some(device)
        then (t, Fail(DeviceIsCurrent))
    else (t.(rows := DropDevice(t.rows, user, device)), Ok(()))
  }

  /** A browser session: expired rows go, one session row without a family comes. */
  function CreateSession(t: Tokens, user: Id, now: Time, ttl: nat): Tokens {
    t.(rows := DropExpired(t.rows, now)[t.next := TokenRow(user, Session, None, None, None, now + ttl)],
        next := t.next + 1)
  }

  datatype Action =
    | Login(user: Id, device: string, now: Time)
    | DoRefresh(token: Id, presented: Option<string>, now: Time)
    | DoAuthenticate(token: Id, now: Time)
    | DoRevokeDevice(user: Id, device: string, current: Option<Id>)
    | OpenSession(user: Id, now: Time, ttl: nat)
    | CloseSession(token: Id)
    | CleanUp(now: Time)
    | ForgetUser(user: Id, keep: Option<Id>)   // a password change or a deactivated account
    | SetActive(user: Id, active: bool)

  function Step(t: Tokens, a: Action): Tokens {
    match a
    case Login(user, device, now) => LoginNative(t, user, device, now).0
    case DoRefresh(token, presented, now) => RefreshPair(t, token, presented, now).0
    case DoAuthenticate(token, now) => Authenticate(t, token, now).0
    case DoRevokeDevice(user, device, current) => RevokeDevice(t, user, device, current).0
    case OpenSession(user, now, ttl) => CreateSession(t, user, now, ttl)
    case CloseSession(token) => t.(rows := t.rows - {token})
    case CleanUp(now) => t.(rows := DropExpired(t.rows, now))
    case ForgetUser(user, keep) => t.(rows := DropUser(t.rows, user, keep))
    case SetActive(user, active) => t.(active := t.active[user := active])
  }

  function Run(t: Tokens, actions: seq<Action>): Tokens
    decreases actions
  {
    if actions == [] then t else Run(Step(t, actions[0]), actions[1..])
  }

  // ---------------------------------------------------------------- the tables

  class TokenTable {
    var rows: map<Id, TokenRow>
    var active: map<Id, bool>
    var next: Id
    const accessTtl: nat
    const refreshTtl: nat

    function View(): Tokens
      reads this
    {
      Tokens(rows, active, next, accessTtl, refreshTtl)
    }

    constructor (accessTtl: nat, refreshTtl: nat)
      ensures View() == Tokens(map[], map[], 0, accessTtl, refreshTtl)
    {
      rows, active, next := map[], map[], 0;
      this.accessTtl, this.refreshTtl := accessTtl, refreshTtl;
    }

    method Fresh() returns (id: Id)
      modifies this`next
      ensures id == old(next) && next == old(next) + 1
    {
      id := next;
      next := next + 1;
    }

    method CreateTokenRow(kind: TokenKind, user: Id, ttl: nat, device: Option<string>, family: Option<Id>, now: Time)
      returns (token: Id)
      modifies this`rows, this`next
      ensures token == old(next) && next == old(next) + 1
      ensures rows == old(rows)[token := TokenRow(user, kind, device, family, None, now + ttl)]
    {
      token := Fresh();
      rows := rows[token := TokenRow(user, kind, device, family, None, now + ttl)];
    }

    method IssueTokenPair(user: Id, device: string, family: Option<Id>, now: Time) returns (pair: TokenPair)
      modifies this`rows, this`next
      ensures var t := old(View());
              (View(), pair) == if family.Some? then IssuePair(t, user, device, family.value, now)
                                else LoginNative(t, user, device, now)
    {
      var effective: Id;
      if family.Some? { effective := family.value; } else { effective := Fresh(); }
      var refresh := CreateTokenRow(Refresh, user, refreshTtl, Some(device), Some(effective), now);
      var access := CreateTokenRow(Access, user, accessTtl, Some(device), Some(effective), now);
      pair := TokenPair(refresh, access);
    }

    method AuthenticateNative(user: Id, device: string, now: Time) returns (pair: TokenPair)
      modifies this`rows, this`next
      ensures (View(), pair) == LoginNative(old(View()), user, device, now)
    {
      pair := IssueTokenPair(user, device, None, now);
    }

    method RefreshTokenPair(token: Id, device: Option<string>, now: Time) returns (reply: Reply<TokenPair>)
      modifies this`rows, this`next
      ensures (View(), reply) == RefreshPair(old(View()), token, device, now)
    {
      if token !in rows || rows[token].kind != Refresh { return Fail(InvalidToken); }
      var known := rows[token];
      if known.revokedAt.Some? {
        if known.family.None? { return Fail(InvalidToken); }
        rows := RevokeFamily(rows, known.family.value, None, now);
        return Fail(TokenReused);
      }
      rows := rows[token := known.(revokedAt := Some(now))];
      if known.expiresAt <= now { return Fail(TokenExpired); }
      if known.user !in active || !active[known.user] {
        if known.family.Some? { rows := RevokeFamily(rows, known.family.value, None, now); }
        return Fail(AccountDisabled);
      }
      var name := if device.Some? then device.value
                  else if known.device.Some? then known.device.value else "unknown-device";
      var family: Id;
      if known.family.Some? { family := known.family.value; } else { family := Fresh(); }
      rows := RevokeFamily(rows, family, Some(Access), now);
      var pair := IssueTokenPair(known.user, name, Some(family), now);
      reply := Ok(pair);
    }

    method GetUserFromToken(token: Id, now: Time) returns (reply: Reply<Id>)
      modifies this`rows
      ensures (View(), reply) == Authenticate(old(View()), token, now)
    {
      if token !in rows { return Fail(InvalidToken); }
      var row := rows[token];
      if row.revokedAt.Some? { return Fail(InvalidToken); }
      if row.kind == Refresh { return Fail(InvalidToken); }
      if row.expiresAt <= now {
        rows := rows - {token};
        return Fail(TokenExpired);
      }
      if row.user !in active || !active[row.user] { return Fail(AccountDisabled); }
      reply := Ok(row.user);
    }

    method RevokeDeviceTokens(user: Id, device: string, current: Option<Id>) returns (reply: Reply<()>)
      modifies this`rows
      ensures (View(), reply) == RevokeDevice(old(View()), user, device, current)
    {
      if current.Some? && current.value in rows && rows[current.value].device == Some(device) {
        return Fail(DeviceIsCurrent);
      }
      rows := DropDevice(rows, user, device);
      reply := Ok(());
    }
  }

  // ---------------------------------------------------------------- families

  predicate Live(t: Tokens, d: Id, f: Id, kind: TokenKind) {
    d in t.rows && t.rows[d].family == Some(f) && t.rows[d].kind == kind && t.rows[d].revokedAt.None?
  }

  /** Keys and family names come from the generator; in a family at most one token of a kind is live. */
  ghost predicate FamiliesOk(t: Tokens) {
    && (forall d :: d in t.rows ==> d < t.next && (t.rows[d].family.Some? ==> t.rows[d].family.value < t.next))
    && (forall f, kind, d, e :: Live(t, d, f, kind) && Live(t, e, f, kind) ==> d == e)
  }

  /** No token of the family is live. */
  ghost predicate Dead(t: Tokens, f: Id) {
    f < t.next && forall d :: d in t.rows && t.rows[d].family == Some(f) ==> t.rows[d].revokedAt.Some?
  }

  /** What every step does to rows: none comes back, none changes its family or kind, none is revived. */
  ghost predicate RowsAge(a: Tokens, b: Tokens) {
    && a.next <= b.next
    && (forall d :: d in b.rows && d < a.next ==> d in a.rows)
    && (forall d :: d in a.rows && d in b.rows ==>
          && b.rows[d].family == a.rows[d].family && b.rows[d].kind == a.rows[d].kind
          && (a.rows[d].revokedAt.Some? ==> b.rows[d].revokedAt.Some?))
  }

  lemma RevocationKeeps(t: Tokens, f: Id, kind: Option<TokenKind>, now: Time)
    requires FamiliesOk(t)
    ensures var t' := t.(rows := RevokeFamily(t.rows, f, kind, now));
            FamiliesOk(t') && RowsAge(t, t')
            && (forall d, g, k :: Live(t', d, g, k) ==> Live(t, d, g, k))
            && (forall d, k :: (kind.None? || kind == Some(k)) ==> !Live(t', d, f, k))
  {
    var t' := t.(rows := RevokeFamily(t.rows, f, kind, now));
    assert forall d, g, k :: Live(t', d, g, k) ==> Live(t, d, g, k);
  }

  /** Dropping or revoking rows keeps every family within bounds. */
  lemma ShrinkKeeps(a: Tokens, b: Tokens)
    requires FamiliesOk(a) && RowsAge(a, b) && a.next == b.next
    requires forall d :: d in b.rows ==> d in a.rows
    ensures FamiliesOk(b)
  {
    assert forall d, g, k :: Live(b, d, g, k) ==> Live(a, d, g, k);
  }

  /** A pair issued for a family that has no live token keeps every family within bounds. */
  lemma IssueKeeps(t: Tokens, user: Id, device: string, f: Id, now: Time)
    requires FamiliesOk(t) && f < t.next
    requires forall d :: !Live(t, d, f, Refresh) && !Live(t, d, f, Access)
    ensures var t' := IssuePair(t, user, device, f, now).0;
            FamiliesOk(t') && RowsAge(t, t')
  {
    var t' := IssuePair(t, user, device, f, now).0;
    forall g: Id, kind: TokenKind, d: Id, e: Id | Live(t', d, g, kind) && Live(t', e, g, kind) ensures d == e {
      if d < t.next { assert Live(t, d, g, kind); }
      if e < t.next { assert Live(t, e, g, kind); }
    }
  }

  lemma RowsAgeTransitive(a: Tokens, b: Tokens, c: Tokens)
    requires FamiliesOk(a) && RowsAge(a, b) && RowsAge(b, c)
    ensures RowsAge(a, c)
  {
    forall d | d in a.rows && d in c.rows
      ensures c.rows[d].family == a.rows[d].family && c.rows[d].kind == a.rows[d].kind
      ensures a.rows[d].revokedAt.Some? ==> c.rows[d].revokedAt.Some?
    {
      assert d in b.rows;
    }
  }

  /** A name not drawn yet names no family. */
  lemma DrawKeeps(t: Tokens)
    requires FamiliesOk(t)
    ensures var t' := t.(next := t.next + 1);
            FamiliesOk(t') && RowsAge(t, t') && forall d, kind :: !Live(t', d, t.next, kind)
  {
    var t' := t.(next := t.next + 1);
    assert forall d, g, k :: Live(t', d, g, k) <==> Live(t, d, g, k);
  }

  lemma LoginKeeps(t: Tokens, user: Id, device: string, now: Time)
    requires FamiliesOk(t)
    ensures FamiliesOk(LoginNative(t, user, device, now).0) && RowsAge(t, LoginNative(t, user, device, now).0)
  {
    var named := t.(next := t.next + 1);
    DrawKeeps(t);
    hide FamiliesOk, RowsAge, IssuePair;
    IssueKeeps(named, user, device, t.next, now);
    RowsAgeTransitive(t, named, LoginNative(t, user, device, now).0);
  }

  /** Consuming the family's live refresh token leaves the family without one. */
  lemma ConsumeKeeps(t: Tokens, token: Id, now: Time)
    requires FamiliesOk(t) && token in t.rows && t.rows[token].kind == Refresh && t.rows[token].revokedAt.None?
    ensures var t' := t.(rows := t.rows[token := t.rows[token].(revokedAt := Some(now))]);
            && FamiliesOk(t') && RowsAge(t, t')
            && (forall d, g, k :: Live(t', d, g, k) ==> Live(t, d, g, k) && d != token)
            && (t.rows[token].family.Some? ==> forall d :: !Live(t', d, t.rows[token].family.value, Refresh))
  {
    var t' := t.(rows := t.rows[token := t.rows[token].(revokedAt := Some(now))]);
    assert forall d, g, k :: Live(t', d, g, k) ==> Live(t, d, g, k) && d != token;
    if t.rows[token].family.Some? { assert Live(t, token, t.rows[token].family.value, Refresh); }
  }

  lemma RefreshKeeps(t: Tokens, token: Id, device: Option<string>, now: Time)
    requires FamiliesOk(t)
    ensures FamiliesOk(RefreshPair(t, token, device, now).0) && RowsAge(t, RefreshPair(t, token, device, now).0)
  {
    var (t', reply) := RefreshPair(t, token, device, now);
    if token in t.rows && t.rows[token].kind == Refresh {
      var row := t.rows[token];
      if row.revokedAt.Some? {
        if row.family.Some? { RevocationKeeps(t, row.family.value, None, now); }
      } else {
        ConsumeKeeps(t, token, now);
        var consumed := t.(rows := t.rows[token := row.(revokedAt := Some(now))]);
        if reply == Fail(AccountDisabled) && row.family.Some? {
          RevocationKeeps(consumed, row.family.value, None, now);
          RowsAgeTransitive(t, consumed, t');
        } else if reply.Ok? {
          RotationKeeps(t, consumed, token, device, now);
        }
      }
    }
  }

  lemma RotationKeeps(t: Tokens, consumed: Tokens, token: Id, device: Option<string>, now: Time)
    requires FamiliesOk(t) && FamiliesOk(consumed) && RowsAge(t, consumed)
    requires RefreshPair(t, token, device, now).1.Ok?
    requires consumed == t.(rows := t.rows[token := t.rows[token].(revokedAt := Some(now))])
    requires t.rows[token].family.Some? ==> forall d :: !Live(consumed, d, t.rows[token].family.value, Refresh)
    ensures FamiliesOk(RefreshPair(t, token, device, now).0) && RowsAge(t, RefreshPair(t, token, device, now).0)
  {
    var row := t.rows[token];
    var family := if row.family.Some? then row.family.value else t.next;
    var named := if row.family.Some? then consumed else consumed.(next := t.next + 1);
    var name := if device.Some? then device.value
                else if row.device.Some? then row.device.value else "unknown-device";
    DrawKeeps(consumed);
    assert family < named.next;
    var t' := RefreshPair(t, token, device, now).0;
    RowsAgeReflexive(consumed);
    hide FamiliesOk, RowsAge, IssuePair, RevokeFamily, Live;
    ReissueKeeps(named, row.user, name, family, now);
    RowsAgeTransitive(t, consumed, named);
    RowsAgeTransitive(t, named, t');
  }

  lemma RowsAgeReflexive(t: Tokens)
    ensures RowsAge(t, t)
  {}

  /** Clear a family's access token, then issue its next pair. */
  lemma ReissueKeeps(t: Tokens, user: Id, name: string, family: Id, now: Time)
    requires FamiliesOk(t) && family < t.next && forall d :: !Live(t, d, family, Refresh)
    ensures var t' := IssuePair(t.(rows := RevokeFamily(t.rows, family, Some(Access), now)), user, name, family, now).0;
            FamiliesOk(t') && RowsAge(t, t')
  {
    RevocationKeeps(t, family, Some(Access), now);
    var cleared := t.(rows := RevokeFamily(t.rows, family, Some(Access), now));
    assert forall d :: !Live(cleared, d, family, Refresh) && !Live(cleared, d, family, Access);
    hide FamiliesOk, RowsAge, RevokeFamily, IssuePair, Live;
    IssueKeeps(cleared, user, name, family, now);
    RowsAgeTransitive(t, cleared, IssuePair(cleared, user, name, family, now).0);
  }

  /** Every step keeps at most one live token of a kind in every family. */
  lemma StepKeeps(t: Tokens, a: Action)
    requires FamiliesOk(t)
    ensures FamiliesOk(Step(t, a)) && RowsAge(t, Step(t, a))
  {
    match a {
      case Login(user, device, now) => LoginKeeps(t, user, device, now);
      case DoRefresh(token, presented, now) => RefreshKeeps(t, token, presented, now);
      case OpenSession(user, now, ttl) =>
        var t' := Step(t, a);
        assert forall d, g, k :: Live(t', d, g, k) ==> Live(t, d, g, k);
      case _ => ShrinkKeeps(t, Step(t, a));
    }
  }

  lemma {:induction false} RunKeeps(t: Tokens, actions: seq<Action>)
    requires FamiliesOk(t)
    ensures FamiliesOk(Run(t, actions)) && RowsAge(t, Run(t, actions))
    decreases actions
  {
    if actions != [] {
      StepKeeps(t, actions[0]);
      RunKeeps(Step(t, actions[0]), actions[1..]);
      hide FamiliesOk, RowsAge, Step;
      RowsAgeTransitive(t, Step(t, actions[0]), Run(t, actions));
    }
  }

  /** In every reachable state a family has at most one unrevoked refresh token and at most one unrevoked
      access token. */
  lemma FamiliesHaveOneOfEach(accessTtl: nat, refreshTtl: nat, actions: seq<Action>, f: Id, kind: TokenKind, d: Id,
                              e: Id)
    requires var t := Run(Tokens(map[], map[], 0, accessTtl, refreshTtl), actions);
             Live(t, d, f, kind) && Live(t, e, f, kind)
    ensures d == e
  {
    RunKeeps(Tokens(map[], map[], 0, accessTtl, refreshTtl), actions);
  }

  // ---------------------------------------------------------------- replays

  lemma StepKeepsDead(t: Tokens, a: Action, f: Id)
    requires FamiliesOk(t) && Dead(t, f)
    ensures Dead(Step(t, a), f)
  {}

  lemma {:induction false} RunKeepsDead(t: Tokens, actions: seq<Action>, f: Id)
    requires FamiliesOk(t) && Dead(t, f)
    ensures Dead(Run(t, actions), f)
    decreases actions
  {
    if actions != [] {
      StepKeeps(t, actions[0]);
      StepKeepsDead(t, actions[0], f);
      RunKeepsDead(Step(t, actions[0]), actions[1..], f);
    }
  }

  /** Once a replay is detected, no token that ever belonged to the family, before or later, authenticates
      or refreshes in any later state. */
  lemma ReplayEndsFamily(t: Tokens, replayed: Id, device: Option<string>, now: Time, actions: seq<Action>,
                         token: Id, presented: Option<string>, later: Time)
    requires FamiliesOk(t)
    requires RefreshPair(t, replayed, device, now).1 == Fail(TokenReused)
    requires var t' := Run(RefreshPair(t, replayed, device, now).0, actions);
             || (token in t.rows && t.rows[token].family == t.rows[replayed].family)
             || (token in t'.rows && t'.rows[token].family == t.rows[replayed].family)
    ensures var t' := Run(RefreshPair(t, replayed, device, now).0, actions);
            Authenticate(t', token, later).1.Fail? && RefreshPair(t', token, presented, later).1.Fail?
  {
    var f := t.rows[replayed].family.value;
    var detected := RefreshPair(t, replayed, device, now).0;
    RevocationKeeps(t, f, None, now);
    assert Dead(detected, f);
    RunKeepsDead(detected, actions, f);
    RunKeeps(detected, actions);
    var t' := Run(detected, actions);
    assert token in t.rows && token in t'.rows ==> t'.rows[token].family == t.rows[token].family;
  }

  /** A refresh token works once: after a rotation, in every later state its reuse is refused, and detected
      as a replay exactly when the row is still stored and has a family. */
  lemma RotatedTokenIsSpent(t: Tokens, token: Id, device: Option<string>, now: Time, actions: seq<Action>,
                            presented: Option<string>, later: Time)
    requires FamiliesOk(t)
    requires RefreshPair(t, token, device, now).1.Ok?
    ensures var t' := Run(RefreshPair(t, token, device, now).0, actions);
            var again := RefreshPair(t', token, presented, later).1;
            again.Fail? && (again == Fail(TokenReused) <==> token in t'.rows && t.rows[token].family.Some?)
  {
    RefreshKeeps(t, token, device, now);
    var rotated := RefreshPair(t, token, device, now).0;
    assert token in rotated.rows && rotated.rows[token].revokedAt.Some?;
    RunKeeps(rotated, actions);
  }

  /** A rotation leaves exactly the pair it returns live in the family. */
  lemma RotationLeavesPair(t: Tokens, token: Id, device: Option<string>, now: Time)
    requires FamiliesOk(t) && RefreshPair(t, token, device, now).1.Ok?
    ensures var (t', reply) := RefreshPair(t, token, device, now);
            && reply.value.refresh in t'.rows && t'.rows[reply.value.refresh].family.Some?
            && var f := t'.rows[reply.value.refresh].family.value;
            && (t.rows[token].family.Some? ==> t.rows[token].family.value == f)
            && (forall d :: Live(t', d, f, Refresh) <==> d == reply.value.refresh)
            && (forall d :: Live(t', d, f, Access) <==> d == reply.value.access)
  {
    RefreshKeeps(t, token, device, now);
    var (t', reply) := RefreshPair(t, token, device, now);
    var f := t'.rows[reply.value.refresh].family.value;
    assert Live(t', reply.value.refresh, f, Refresh) && Live(t', reply.value.access, f, Access);
  }

  // ---------------------------------------------------------------- what is granted

  /** A token that is stored, neither revoked nor expired, of a user who is active. */
  predicate Good(t: Tokens, token: Id, now: Time) {
    && token in t.rows && t.rows[token].revokedAt.None? && now < t.rows[token].expiresAt
    && t.rows[token].user in t.active && t.active[t.rows[token].user]
  }

  /** A credential authenticates exactly when it is good and no refresh token, and then as the user it was issued to.
      Nothing but its own expired row is lost. */
  lemma AuthenticatesExactly(t: Tokens, token: Id, now: Time)
    ensures var (t', reply) := Authenticate(t, token, now);
            && (reply.Ok? <==> Good(t, token, now) && t.rows[token].kind != Refresh)
            && (reply.Ok? ==> reply.value == t.rows[token].user && t' == t)
            && (forall d :: d in t.rows && d !in t'.rows ==> d == token && t.rows[d].expiresAt <= now)
            && t' == t.(rows := t'.rows) && forall d :: d in t'.rows ==> d in t.rows && t'.rows[d] == t.rows[d]
  {}

  /** A refresh token is exchanged exactly when it is good. The pair is new, of the same user, the refresh token of its
      kind and the access token of its own, and each works at once, until its own time runs out. */
  lemma RefreshesExactly(t: Tokens, token: Id, device: Option<string>, now: Time)
    requires FamiliesOk(t)
    ensures var (t', reply) := RefreshPair(t, token, device, now);
            && (reply.Ok? <==> Good(t, token, now) && t.rows[token].kind == Refresh)
            && (reply.Ok? ==>
                  var pair := reply.value;
                  && pair.refresh !in t.rows && pair.access !in t.rows && pair.refresh != pair.access
                  && IssuedTo(t', pair, t.rows[token].user, now))
  {
    hide RevokeFamily;
  }

  /** Both tokens of the pair are stored for the user and unrevoked, for as long as their kind lives. */
  ghost predicate IssuedTo(t: Tokens, pair: TokenPair, user: Id, now: Time) {
    && pair.refresh in t.rows && pair.access in t.rows
    && var (refresh, access) := (t.rows[pair.refresh], t.rows[pair.access]);
       && refresh.user == access.user == user && refresh.kind == Refresh && access.kind == Access
       && refresh.family == access.family && refresh.family.Some? && refresh.device == access.device
       && refresh.revokedAt.None? && access.revokedAt.None?
       && refresh.expiresAt == now + t.refreshTtl && access.expiresAt == now + t.accessTtl
  }

  /** A login starts a family of its own, which nothing else belongs to. */
  lemma LoginIssues(t: Tokens, user: Id, device: string, now: Time)
    requires FamiliesOk(t)
    ensures var (t', pair) := LoginNative(t, user, device, now);
            && IssuedTo(t', pair, user, now) && t'.rows[pair.access].device == Some(device)
            && (forall d :: d in t.rows ==> t.rows[d].family != t'.rows[pair.access].family)
            && forall d :: d in t.rows ==> d in t'.rows && t'.rows[d] == t.rows[d]
  {}

  /** Revoking a device ends every token of the user on it, at once and in every later state; tokens of other devices
      and users stay. It is refused exactly when the request itself comes from that device. */
  lemma DeviceIsRevoked(t: Tokens, user: Id, device: string, current: Option<Id>, actions: seq<Action>, token: Id,
                        presented: Option<string>, now: Time)
    requires FamiliesOk(t)
    ensures var (t', reply) := RevokeDevice(t, user, device, current);
            var later := Run(t', actions);
            && (reply.Fail? <==>
                 current.Some? && current.value in t.rows && t.rows[current.value].device == Some(device))
            && (reply.Fail? ==> t' == t)
            && (reply.Ok? && token in t.rows && t.rows[token].user == user && t.rows[token].device == Some(device) ==>
                  Authenticate(later, token, now).1.Fail? && RefreshPair(later, token, presented, now).1.Fail?)
            && (token in t.rows && !(t.rows[token].user == user && t.rows[token].device == Some(device)) ==>
                  token in t'.rows && t'.rows[token] == t.rows[token])
  {
    var t' := RevokeDevice(t, user, device, current).0;
    StepKeeps(t, DoRevokeDevice(user, device, current));
    RunKeeps(t', actions);
    hide FamiliesOk;
  }

  /** A browser session works at once and until its time runs out; opening one clears away expired rows alone. */
  lemma SessionOpens(t: Tokens, user: Id, now: Time, ttl: nat, later: Time)
    requires FamiliesOk(t) && IsActive(t, user)
    ensures var t' := CreateSession(t, user, now, ttl);
            && (Authenticate(t', t.next, later).1 == Ok(user) <==> later < now + ttl)
            && RefreshPair(t', t.next, None, later).1.Fail?
            && forall d :: d in t.rows ==> (d in t'.rows <==> now < t.rows[d].expiresAt)
  {}

  /** After a password change or a deactivation no token of the user works, at once and in every later state, but the
      one that was kept; tokens of other users stay. */
  lemma UserIsForgotten(t: Tokens, user: Id, keep: Option<Id>, actions: seq<Action>, token: Id,
                        presented: Option<string>, now: Time)
    requires FamiliesOk(t) && token in t.rows
    ensures var t' := Step(t, ForgetUser(user, keep));
            if t.rows[token].user == user && keep != Some(token) then
              && Authenticate(Run(t', actions), token, now).1.Fail?
              && RefreshPair(Run(t', actions), token, presented, now).1.Fail?
            else token in t'.rows && t'.rows[token] == t.rows[token]
  {
    var t' := Step(t, ForgetUser(user, keep));
    StepKeeps(t, ForgetUser(user, keep));
    RunKeeps(t', actions);
    hide FamiliesOk;
  }
}
