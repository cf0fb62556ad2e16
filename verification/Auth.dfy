/** Resolving a provider's identity to a user: link by proof, link by verified address, or create. */
module Auth {
  import opened Base
  import opened Rows

  const PLACEHOLDER_DOMAIN := "@users.noreply.recall.invalid"

  /** A provider name and the account id it knows this person by. */
  type LinkKey = (string, string)

  datatype Identity = Identity(
    provider: string, accountId: string, email: Option<string>, verified: bool,
    name: Option<string>, avatar: Option<string>, refreshToken: Option<string>)

  datatype User = User(
    email: string, emailVerified: bool, name: Option<string>, avatar: Option<string>,
    provider: string, accountId: string)

  datatype Account = Account(user: UserId, email: Option<string>, emailVerified: bool, refreshToken: Option<string>)

  datatype Store = Store(users: map<UserId, User>, accounts: map<LinkKey, Account>, next: UserId)

  /** `OAuthIdentity.__post_init__`: no address, nothing verified. */
  function Received(i: Identity): Identity {
    if Present(i.email) then i else i.(email := None, verified := false)
  }

  function KeyOf(i: Identity): LinkKey {
    (i.provider, i.accountId)
  }

  /** Addresses are compared without case by the database. */
  function Fold(s: string): (r: string)
    ensures |r| == |s|
  {
    seq(|s|, i requires 0 <= i < |s| => Lower(s[i]))
  }

  function Placeholder(k: LinkKey): string {
    k.0 + "-" + k.1 + PLACEHOLDER_DOMAIN
  }

  predicate EndsWith(s: string, suffix: string) {
    |s| >= |suffix| && s[|s| - |suffix|..] == suffix
  }

  predicate IsPlaceholder(email: string) {
    EndsWith(email, PLACEHOLDER_DOMAIN)
  }

  predicate Taken(users: map<UserId, User>, email: string) {
    exists u | u in users :: Fold(users[u].email) == Fold(email)
  }

  ghost function OwnerOf(users: map<UserId, User>, email: string): (u: UserId)
    requires Taken(users, email)
    ensures u in users && Fold(users[u].email) == Fold(email)
  {
    var u :| u in users && Fold(users[u].email) == Fold(email);
    u
  }

  // ---- the unique constraints ----

  ghost predicate UniqueEmails(users: map<UserId, User>) {
    forall u, v | u in users && v in users && Fold(users[u].email) == Fold(users[v].email) :: u == v
  }

  ghost predicate UniqueLogins(users: map<UserId, User>) {
    forall u, v | u in users && v in users && users[u].provider == users[v].provider
        && users[u].accountId == users[v].accountId :: u == v
  }

  /** The insert or update of one row violates neither unique key. */
  predicate Fits(users: map<UserId, User>, u: UserId, row: User) {
    forall v | v in users && v != u ::
      && Fold(users[v].email) != Fold(row.email)
      && !(users[v].provider == row.provider && users[v].accountId == row.accountId)
  }

  /** Emails and logins are unique, links point at users, and each user's login is one of its own links. */
  ghost predicate Inv(s: Store) {
    && UniqueEmails(s.users) && UniqueLogins(s.users)
    && (forall k | k in s.accounts :: s.accounts[k].user in s.users)
    && (forall u | u in s.users :: LoginOf(s.users[u]) in s.accounts && s.accounts[LoginOf(s.users[u])].user == u)
    && (forall u | u in s.users :: u < s.next)
  }

  function LoginOf(user: User): LinkKey {
    (user.provider, user.accountId)
  }

  // ---- login ----

  function OrElse(a: Option<string>, b: Option<string>): Option<string> {
    if Present(a) then a else b
  }

  /** `_refresh_profile`'s row. */
  function Refreshed(users: map<UserId, User>, user: User, i: Identity): User {
    var shown := user.(provider := i.provider, accountId := i.accountId,
                       name := OrElse(user.name, i.name), avatar := OrElse(i.avatar, user.avatar));
    if i.email.Some? && i.verified && IsPlaceholder(user.email) then
      if Taken(users, i.email.value) then shown else shown.(email := i.email.value, emailVerified := true)
    else if i.email.Some? && i.verified && user.email == i.email.value then shown.(emailVerified := true)
    else shown
  }

  function Created(users: map<UserId, User>, i: Identity): User {
    var email := if i.email.Some? && !i.verified && Taken(users, i.email.value) then None else i.email;
    User(email.GetOr(Placeholder(KeyOf(i))), email.Some? && i.verified, i.name, i.avatar, i.provider, i.accountId)
  }

  /** The user an identity resolves to, before its row is written. */
  ghost function Resolved(s: Store, i: Identity): UserId {
    if KeyOf(i) in s.accounts && s.accounts[KeyOf(i)].user in s.users then s.accounts[KeyOf(i)].user
    else if i.email.Some? && i.verified && Taken(s.users, i.email.value) then OwnerOf(s.users, i.email.value)
    else s.next
  }

  ghost function RowFor(s: Store, i: Identity): User {
    var u := Resolved(s, i);
    if u in s.users then Refreshed(s.users, s.users[u], i) else Created(s.users, i)
  }

  /** `_upsert_account`: an existing link keeps its user, and a missing refresh token keeps the stored one. */
  function AccountFor(s: Store, u: UserId, i: Identity): Account {
    var before := if KeyOf(i) in s.accounts then s.accounts[KeyOf(i)] else Account(u, None, false, None);
    before.(email := i.email, emailVerified := i.verified,
            refreshToken := if i.refreshToken.Some? then i.refreshToken else before.refreshToken)
  }

  /** `login` as one transaction: a violated constraint rolls it back. */
  ghost function LoggedIn(s: Store, raw: Identity): Option<(Store, UserId)> {
    var i := Received(raw);
    var u := Resolved(s, i);
    if !Fits(s.users, u, RowFor(s, i)) then None
    else Some((Store(s.users[u := RowFor(s, i)], s.accounts[KeyOf(i) := AccountFor(s, u, i)],
                     if u in s.users then s.next else s.next + 1), u))
  }

  class AuthService {
    var users: map<UserId, User>
    var accounts: map<LinkKey, Account>
    var next: UserId

    constructor (s: Store)
      ensures State() == s
    {
      users, accounts, next := s.users, s.accounts, s.next;
    }

    ghost function State(): Store
      reads this
    {
      Store(users, accounts, next)
    }

    method Login(raw: Identity) returns (user: Option<UserId>)
      requires Inv(State())
      modifies this
      ensures var done := LoggedIn(old(State()), raw);
              if done.None? then user.None? && State() == old(State())
              else user == Some(done.value.1) && State() == done.value.0
    {
      var i := Received(raw);
      var u, row := ResolveUser(i);
      if !Fits(users, u, row) {
        return None;
      }
      if u !in users {
        next := next + 1;
      }
      users := users[u := row];
      UpsertAccount(u, i);
      user := Some(u);
    }

    method ResolveUser(i: Identity) returns (u: UserId, row: User)
      requires Inv(State())
      ensures u == Resolved(State(), i) && row == RowFor(State(), i)
    {
      if KeyOf(i) in accounts && accounts[KeyOf(i)].user in users {
        u := accounts[KeyOf(i)].user;
        row := RefreshProfile(users[u], i);
        return;
      }
      if i.email.Some? && i.verified {
        if v :| v in users && Fold(users[v].email) == Fold(i.email.value) {
          u := v;
          row := RefreshProfile(users[u], i);
          return;
        }
      }
      var email := i.email;
      if email.Some? && !i.verified && Taken(users, email.value) {
        email := None;
      }
      u := next;
      row := User(if email.Some? then email.value else Placeholder(KeyOf(i)), email.Some? && i.verified,
                  i.name, i.avatar, i.provider, i.accountId);
    }

    method RefreshProfile(user: User, i: Identity) returns (row: User)
      ensures row == Refreshed(users, user, i)
    {
      row := user.(provider := i.provider);
      row := row.(accountId := i.accountId);
      row := row.(name := OrElse(row.name, i.name));
      row := row.(avatar := OrElse(i.avatar, row.avatar));
      if i.email.Some? && i.verified && IsPlaceholder(row.email) {
        if !Taken(users, i.email.value) {
          row := row.(email := i.email.value);
          row := row.(emailVerified := true);
        }
      } else if i.email.Some? && i.verified && row.email == i.email.value {
        row := row.(emailVerified := true);
      }
    }

    method UpsertAccount(u: UserId, i: Identity)
      modifies `accounts
      ensures accounts == old(accounts)[KeyOf(i) := AccountFor(old(State()), u, i)]
    {
      var account := if KeyOf(i) in accounts then accounts[KeyOf(i)] else Account(u, None, false, None);
      account := account.(email := i.email);
      account := account.(emailVerified := i.verified);
      if i.refreshToken.Some? {
        account := account.(refreshToken := i.refreshToken);
      }
      accounts := accounts[KeyOf(i) := account];
    }
  }

  // ---- one login ----

  /** The one way a login can fail: a new user needs its placeholder address, and someone already holds it. */
  predicate PlaceholderClash(s: Store, i: Identity) {
    && KeyOf(i) !in s.accounts
    && (i.email.None? || (!i.verified && Taken(s.users, i.email.value)))
    && Taken(s.users, Placeholder(KeyOf(i)))
  }

  lemma NobodyElseHasTheLogin(s: Store, i: Identity)
    requires Inv(s)
    ensures forall v | v in s.users && v != Resolved(s, i) :: LoginOf(s.users[v]) != KeyOf(i)
  {
  }

  lemma LoginFailsIff(s: Store, raw: Identity)
    requires Inv(s)
    ensures LoggedIn(s, raw).None? <==> PlaceholderClash(s, Received(raw))
  {
    var i := Received(raw);
    var u, row := Resolved(s, i), RowFor(s, i);
    NobodyElseHasTheLogin(s, i);
    if u in s.users {
      assert row.email == s.users[u].email || !Taken(s.users, row.email);
    }
  }

  lemma FitsKeepsUnique(users: map<UserId, User>, u: UserId, row: User)
    requires UniqueEmails(users) && UniqueLogins(users) && Fits(users, u, row)
    ensures UniqueEmails(users[u := row]) && UniqueLogins(users[u := row])
  {
  }

  lemma LoginLinks(s: Store, raw: Identity)
    requires Inv(s) && LoggedIn(s, raw).Some?
    ensures var (t, u) := LoggedIn(s, raw).value;
            && KeyOf(raw) in t.accounts && t.accounts[KeyOf(raw)].user == u && LoginOf(t.users[u]) == KeyOf(raw)
            && (forall k | k in s.accounts :: k in t.accounts && t.accounts[k].user == s.accounts[k].user)
            && (KeyOf(raw) in s.accounts ==> u == s.accounts[KeyOf(raw)].user)
  {
    var i := Received(raw);
    assert KeyOf(i) == KeyOf(raw);
    var u := Resolved(s, i);
    assert LoginOf(RowFor(s, i)) == KeyOf(i);
    assert AccountFor(s, u, i).user == if KeyOf(i) in s.accounts then s.accounts[KeyOf(i)].user else u;
  }

  /**
   A successful login keeps every constraint, never re-points a link, and links the identity to the
   user it answers with.
   */
  lemma LoginKeepsInv(s: Store, raw: Identity)
    requires Inv(s) && LoggedIn(s, raw).Some?
    ensures var (t, u) := LoggedIn(s, raw).value;
            && Inv(t) && u in t.users && KeyOf(raw) in t.accounts && t.accounts[KeyOf(raw)].user == u
            && (forall k | k in s.accounts :: k in t.accounts && t.accounts[k].user == s.accounts[k].user)
            && (KeyOf(raw) in s.accounts ==> u == s.accounts[KeyOf(raw)].user)
  {
    var i := Received(raw);
    var (t, u) := LoggedIn(s, raw).value;
    LoginLinks(s, raw);
    FitsKeepsUnique(s.users, u, RowFor(s, i));
    assert t.users == s.users[u := RowFor(s, i)];
    forall v | v in t.users
      ensures LoginOf(t.users[v]) in t.accounts && t.accounts[LoginOf(t.users[v])].user == v && v < t.next
    {
      if v != u {
        assert t.users[v] == s.users[v];
      }
    }
  }

  /** An identity that is not linked and not verified is never let into a user that already exists. */
  lemma UnverifiedNeverTakesOver(s: Store, raw: Identity)
    requires Inv(s) && LoggedIn(s, raw).Some?
    requires KeyOf(raw) !in s.accounts && !Received(raw).verified
    ensures LoggedIn(s, raw).value.1 !in s.users
    ensures forall v | v in s.users :: LoggedIn(s, raw).value.0.users[v] == s.users[v]
  {
    assert KeyOf(Received(raw)) == KeyOf(raw);
  }

  /**
   An identity that was never linked joins a user created under another login exactly when it is
   verified and some user holds its address, whether or not that user's own address was ever
   verified; it then joins the holder of that address.
   */
  lemma JoinsIff(s: Store, raw: Identity)
    requires Inv(s) && LoggedIn(s, raw).Some? && KeyOf(raw) !in s.accounts
    ensures var i, u := Received(raw), LoggedIn(s, raw).value.1;
            && (u in s.users <==> i.verified && i.email.Some? && Taken(s.users, i.email.value))
            && (u in s.users ==> Fold(s.users[u].email) == Fold(i.email.value) && LoginOf(s.users[u]) != KeyOf(raw))
  {
    var i, u := Received(raw), LoggedIn(s, raw).value.1;
    assert KeyOf(i) == KeyOf(raw) && u == Resolved(s, i);
    assert s.next !in s.users;
  }

  // ---- what a login writes ----

  predicate HasEmail(raw: Identity) {
    raw.email.Some? && raw.email.value != ""
  }

  /** A verified address, as far as there is an address. */
  predicate Vouched(raw: Identity) {
    HasEmail(raw) && raw.verified
  }

  /** The same letter, in whichever case. */
  predicate SameLetter(c: char, d: char) {
    || c == d
    || ('A' <= c <= 'Z' && d as int == c as int + 32)
    || ('A' <= d <= 'Z' && c as int == d as int + 32)
  }

  predicate SameAddress(a: string, b: string) {
    |a| == |b| && forall i | 0 <= i < |a| :: SameLetter(a[i], b[i])
  }

  lemma FoldIff(a: string, b: string)
    ensures Fold(a) == Fold(b) <==> SameAddress(a, b)
  {
    forall i | 0 <= i < |a| && |a| == |b|
      ensures Fold(a)[i] == Fold(b)[i] <==> SameLetter(a[i], b[i])
    {
    }
  }

  predicate Held(users: map<UserId, User>, email: string) {
    exists u | u in users :: SameAddress(users[u].email, email)
  }

  lemma HeldIff(users: map<UserId, User>, email: string)
    ensures Held(users, email) <==> Taken(users, email)
  {
    forall u | u in users
      ensures SameAddress(users[u].email, email) <==> Fold(users[u].email) == Fold(email)
    {
      FoldIff(users[u].email, email);
    }
  }

  /**
   A new user gets the identity's address, unless there is none or an unverified one is held already:
   then a placeholder of provider and account id.  Only a verified address counts as verified.
   */
  predicate NewRow(users: map<UserId, User>, raw: Identity, row: User) {
    && row.provider == raw.provider && row.accountId == raw.accountId
    && row.name == raw.name && row.avatar == raw.avatar
    && row.emailVerified == Vouched(raw)
    && row.email == if HasEmail(raw) && (raw.verified || !Held(users, raw.email.value)) then raw.email.value
                    else raw.provider + "-" + raw.accountId + "@users.noreply.recall.invalid"
  }

  /** A known user keeps its name, takes a newer picture, and trades a placeholder for a free verified address. */
  predicate SeenRow(users: map<UserId, User>, before: User, raw: Identity, row: User) {
    && row.provider == raw.provider && row.accountId == raw.accountId
    && row.name == (if Present(before.name) then before.name else raw.name)
    && row.avatar == (if Present(raw.avatar) then raw.avatar else before.avatar)
    && if Vouched(raw) && EndsWith(before.email, "@users.noreply.recall.invalid") && !Held(users, raw.email.value) then
         row.email == raw.email.value && row.emailVerified
       else
         && row.email == before.email
         && row.emailVerified == (before.emailVerified
              || (Vouched(raw) && before.email == raw.email.value
                  && !EndsWith(before.email, "@users.noreply.recall.invalid")))
  }

  /** The link carries this login's address and keeps a refresh token the provider did not repeat. */
  predicate LinkRow(s: Store, u: UserId, raw: Identity, link: Account) {
    var known := KeyOf(raw) in s.accounts;
    && link.user == (if known then s.accounts[KeyOf(raw)].user else u)
    && link.email == (if HasEmail(raw) then raw.email else None) && link.emailVerified == Vouched(raw)
    && link.refreshToken == if raw.refreshToken.Some? || !known then raw.refreshToken
                            else s.accounts[KeyOf(raw)].refreshToken
  }

  lemma UserRowWritten(s: Store, raw: Identity)
    requires Inv(s)
    ensures var i, u := Received(raw), Resolved(s, Received(raw));
            if u in s.users then SeenRow(s.users, s.users[u], raw, RowFor(s, i)) else NewRow(s.users, raw, RowFor(s, i))
  {
    var i := Received(raw);
    if HasEmail(raw) {
      HeldIff(s.users, raw.email.value);
    }
    assert Placeholder(KeyOf(i)) == raw.provider + "-" + raw.accountId + "@users.noreply.recall.invalid";
  }

  lemma LinkRowWritten(s: Store, u: UserId, raw: Identity)
    ensures LinkRow(s, u, raw, AccountFor(s, u, Received(raw)))
  {
  }

  /** A login that succeeds writes the row of the user it answers with and the row of its link, and no other. */
  lemma LoginWrites(s: Store, raw: Identity)
    requires Inv(s) && LoggedIn(s, raw).Some?
    ensures var (t, u) := LoggedIn(s, raw).value;
            var k := (raw.provider, raw.accountId);
            && u in t.users && t.users == s.users[u := t.users[u]] && k in t.accounts
            && t.accounts == s.accounts[k := t.accounts[k]]
            && (if u in s.users then SeenRow(s.users, s.users[u], raw, t.users[u])
                else NewRow(s.users, raw, t.users[u]))
            && LinkRow(s, u, raw, t.accounts[k])
            && t.next == if u in s.users then s.next else s.next + 1
  {
    UserRowWritten(s, raw);
    LinkRowWritten(s, Resolved(s, Received(raw)), raw);
    assert KeyOf(Received(raw)) == (raw.provider, raw.accountId);
  }

  // ---- every sequence of logins ----

  ghost function After(s: Store, logins: seq<Identity>): Store {
    if logins == [] then s
    else
      var before := After(s, logins[..|logins| - 1]);
      var done := LoggedIn(before, logins[|logins| - 1]);
      if done.None? then before else done.value.0
  }

  const EMPTY := Store(map[], map[], 0)

  lemma {:induction false} AfterKeepsInv(logins: seq<Identity>)
    ensures Inv(After(EMPTY, logins))
  {
    if logins != [] {
      AfterKeepsInv(logins[..|logins| - 1]);
      var before, last := After(EMPTY, logins[..|logins| - 1]), logins[|logins| - 1];
      if LoggedIn(before, last).Some? {
        LoginKeepsInv(before, last);
      }
    }
  }

  lemma {:induction false} LinksAreForever(logins: seq<Identity>, n: nat, k: LinkKey)
    requires n <= |logins| && k in After(EMPTY, logins[..n]).accounts
    ensures k in After(EMPTY, logins).accounts
    ensures After(EMPTY, logins).accounts[k].user == After(EMPTY, logins[..n]).accounts[k].user
    decreases |logins|
  {
    if n < |logins| {
      var front, last := logins[..|logins| - 1], logins[|logins| - 1];
      assert front[..n] == logins[..n];
      LinksAreForever(front, n, k);
      AfterKeepsInv(front);
      if LoggedIn(After(EMPTY, front), last).Some? {
        LoginKeepsInv(After(EMPTY, front), last);
      }
    } else {
      assert logins[..n] == logins;
    }
  }

  ghost function Answer(logins: seq<Identity>, i: nat): Option<UserId>
    requires i < |logins|
  {
    var done := LoggedIn(After(EMPTY, logins[..i]), logins[i]);
    if done.None? then None else Some(done.value.1)
  }

  ghost predicate LinkedTo(logins: seq<Identity>, n: nat, k: LinkKey, u: UserId)
    requires n <= |logins|
  {
    var t := After(EMPTY, logins[..n]);
    k in t.accounts && t.accounts[k].user == u
  }

  lemma AnswerIsLinked(logins: seq<Identity>, i: nat)
    requires i < |logins| && Answer(logins, i).Some?
    ensures LinkedTo(logins, i + 1, KeyOf(logins[i]), Answer(logins, i).value)
  {
    AfterKeepsInv(logins[..i]);
    LoginKeepsInv(After(EMPTY, logins[..i]), logins[i]);
    assert logins[..i + 1][..i] == logins[..i];
  }

  lemma LinkedToOne(logins: seq<Identity>, m: nat, n: nat, k: LinkKey, u: UserId, v: UserId)
    requires m <= n <= |logins| && LinkedTo(logins, m, k, u) && LinkedTo(logins, n, k, v)
    ensures u == v
  {
    assert logins[..n][..m] == logins[..m];
    LinksAreForever(logins[..n], m, k);
  }

  /** Over every sequence of logins, one provider account always answers with one user. */
  lemma LoginIsStable(logins: seq<Identity>, i: nat, j: nat)
    requires i <= j < |logins| && KeyOf(logins[i]) == KeyOf(logins[j])
    requires Answer(logins, i).Some? && Answer(logins, j).Some?
    ensures Answer(logins, i) == Answer(logins, j)
  {
    AnswerIsLinked(logins, i);
    AnswerIsLinked(logins, j);
    LinkedToOne(logins, i + 1, j + 1, KeyOf(logins[i]), Answer(logins, i).value, Answer(logins, j).value);
  }

  // ---- when no login can ever fail ----

  /** Provider names without '-', lower-case ids, and no real address on the placeholder domain. */
  ghost predicate Ordinary(i: Identity) {
    && '-' !in i.provider && Fold(i.provider) == i.provider && Fold(i.accountId) == i.accountId
    && (i.email.Some? ==> !IsPlaceholder(Fold(i.email.value)))
  }

  /** Whoever holds a placeholder address holds the one of a linked account of ordinary shape. */
  ghost predicate Reserved(s: Store) {
    forall u | u in s.users && IsPlaceholder(Fold(s.users[u].email)) ::
      HasReservation(s.accounts, s.users[u].email)
  }

  lemma FoldOfConcat(a: string, b: string)
    ensures Fold(a + b) == Fold(a) + Fold(b)
  {
  }

  lemma PlaceholderIsFolded(i: Identity)
    requires Ordinary(i)
    ensures Fold(Placeholder(KeyOf(i))) == Placeholder(KeyOf(i)) && IsPlaceholder(Placeholder(KeyOf(i)))
  {
    FoldOfConcat(i.provider + "-" + i.accountId, PLACEHOLDER_DOMAIN);
    FoldOfConcat(i.provider + "-", i.accountId);
    FoldOfConcat(i.provider, "-");
    assert Fold("-") == "-";
    assert Fold(PLACEHOLDER_DOMAIN) == PLACEHOLDER_DOMAIN;
  }

  lemma {:induction false} FirstDash(p: string, q: string, a: string, b: string)
    requires '-' !in p && '-' !in q && p + "-" + a == q + "-" + b
    ensures p == q && a == b
  {
    var x, y := p + "-" + a, q + "-" + b;
    assert x[|p|] == '-' && y[|q|] == '-';
    assert forall n | 0 <= n < |p| :: x[n] == p[n] && p[n] in p;
    assert forall n | 0 <= n < |q| :: y[n] == q[n] && q[n] in q;
    assert |p| == |q|;
    assert x[..|p|] == p && y[..|q|] == q && x[|p| + 1..] == a && y[|q| + 1..] == b;
  }

  lemma PlaceholderInjective(k: LinkKey, l: LinkKey)
    requires '-' !in k.0 && '-' !in l.0 && Placeholder(k) == Placeholder(l)
    ensures k == l
  {
    var a, b := k.0 + "-" + k.1, l.0 + "-" + l.1;
    assert Placeholder(k) == a + PLACEHOLDER_DOMAIN && Placeholder(l) == b + PLACEHOLDER_DOMAIN;
    assert (a + PLACEHOLDER_DOMAIN)[..|a|] == a && (b + PLACEHOLDER_DOMAIN)[..|b|] == b;
    FirstDash(k.0, l.0, k.1, l.1);
  }

  ghost predicate HasReservation(accounts: map<LinkKey, Account>, email: string) {
    exists k: LinkKey :: k in accounts && '-' !in k.0 && Fold(email) == Placeholder(k)
  }

  lemma OrdinaryNeverClashes(s: Store, raw: Identity)
    requires Inv(s) && Reserved(s) && Ordinary(raw)
    ensures LoggedIn(s, raw).Some?
  {
    var i := Received(raw);
    LoginFailsIff(s, raw);
    PlaceholderIsFolded(i);
    if PlaceholderClash(s, i) {
      var u := OwnerOf(s.users, Placeholder(KeyOf(i)));
      assert HasReservation(s.accounts, s.users[u].email);
      var k: LinkKey :| k in s.accounts && '-' !in k.0 && Fold(s.users[u].email) == Placeholder(k);
      PlaceholderInjective(k, KeyOf(i));
      assert false;
    }
  }

  lemma LoginEmail(s: Store, raw: Identity)
    requires Inv(s) && LoggedIn(s, raw).Some?
    ensures var i, (t, u) := Received(raw), LoggedIn(s, raw).value;
            && (forall v | v in t.users && v != u :: v in s.users && t.users[v] == s.users[v])
            && (|| (u in s.users && t.users[u].email == s.users[u].email)
                || t.users[u].email == Placeholder(KeyOf(i))
                || (i.email.Some? && t.users[u].email == i.email.value))
  {
  }

  lemma OrdinaryLoginSucceeds(s: Store, raw: Identity)
    requires Inv(s) && Reserved(s) && Ordinary(raw)
    ensures LoggedIn(s, raw).Some? && Reserved(LoggedIn(s, raw).value.0)
  {
    OrdinaryNeverClashes(s, raw);
    var i := Received(raw);
    var (t, u) := LoggedIn(s, raw).value;
    LoginLinks(s, raw);
    LoginEmail(s, raw);
    PlaceholderIsFolded(i);
    forall v | v in t.users && IsPlaceholder(Fold(t.users[v].email))
      ensures HasReservation(t.accounts, t.users[v].email)
    {
      if v in s.users && t.users[v].email == s.users[v].email {
        assert HasReservation(s.accounts, s.users[v].email);
        var k: LinkKey :| k in s.accounts && '-' !in k.0 && Fold(s.users[v].email) == Placeholder(k);
        assert k in t.accounts;
      } else {
        assert t.users[v].email == Placeholder(KeyOf(i));
        assert KeyOf(i) in t.accounts;
      }
    }
  }

  /** With ordinary identities every login of every sequence succeeds. */
  lemma {:induction false} OrdinaryLoginsAlwaysSucceed(logins: seq<Identity>, i: nat)
    requires i < |logins| && forall n | 0 <= n <= i :: Ordinary(logins[n])
    ensures Answer(logins, i).Some? && Reserved(After(EMPTY, logins[..i + 1]))
  {
    AfterKeepsInv(logins[..i]);
    assert logins[..i + 1][..i] == logins[..i];
    if i > 0 {
      OrdinaryLoginsAlwaysSucceed(logins, i - 1);
    } else {
      assert logins[..0] == [];
    }
    OrdinaryLoginSucceeds(After(EMPTY, logins[..i]), logins[i]);
  }

  /** Why the hypothesis is there: two providers whose dashed names run into their account ids share one placeholder. */
  lemma DashesCollide(name: Option<string>)
    ensures var first := Identity("a", "b-c", None, false, name, None, None);
            var second := Identity("a-b", "c", None, false, name, None, None);
            Answer([first, second], 0).Some? && Answer([first, second], 1).None?
  {
    var first := Identity("a", "b-c", None, false, name, None, None);
    var second := Identity("a-b", "c", None, false, name, None, None);
    var logins := [first, second];
    assert logins[..0] == [] && logins[..1] == [first] && [first][..0] == [];
    LoginFailsIff(EMPTY, first);
    LoginKeepsInv(EMPTY, first);
    var s := After(EMPTY, logins[..1]);
    assert [first][|[first]| - 1] == first && After(EMPTY, []) == EMPTY;
    assert After(EMPTY, [first]) == LoggedIn(EMPTY, first).value.0;
    assert s.users[0].email == Placeholder(KeyOf(first));
    assert "a" + "-" + "b-c" == "a-b" + "-" + "c";
    assert Placeholder(KeyOf(first)) == Placeholder(KeyOf(second));
    LoginFailsIff(s, second);
  }

  /**
   An unverified address does not keep its user separate for good: once a provider vouches for the
   same address, that login answers with the user the unverified one created.
   */
  lemma UnverifiedAddressIsJoined(name: Option<string>)
    ensures var first := Identity("fb", "1", Some("v@x"), false, name, None, None);
            var second := Identity("g", "2", Some("v@x"), true, name, None, None);
            Answer([first, second], 0) == Answer([first, second], 1) == Some(0)
  {
    var first := Identity("fb", "1", Some("v@x"), false, name, None, None);
    var second := Identity("g", "2", Some("v@x"), true, name, None, None);
    var logins := [first, second];
    assert logins[..0] == [] && logins[..1] == [first] && [first][..0] == [];
    LoginFailsIff(EMPTY, first);
    LoginKeepsInv(EMPTY, first);
    var s := After(EMPTY, logins[..1]);
    assert [first][|[first]| - 1] == first && After(EMPTY, []) == EMPTY;
    assert After(EMPTY, [first]) == LoggedIn(EMPTY, first).value.0;
    assert s.users.Keys == {0} && s.users[0].email == "v@x";
    assert |KeyOf(second).0| != |KeyOf(first).0|;
    assert s.accounts.Keys == {KeyOf(first)};
    LoginFailsIff(s, second);
    JoinsIff(s, second);
  }
}
