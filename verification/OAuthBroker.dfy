// The OAuth authorization broker (internal/mcpserver/oauth.go, oauth_flow.go): tickets, codes, access
// and refresh tokens. Secrets are numbers drawn in sequence (random and hashed without collision in
// the source); time is counted in seconds and read once per request.

module OAuthBook {
  import opened Outcomes

  type Secret = nat

  const TicketLifetime := 300
  const CodeLifetime := 60
  const AccessLifetime := 3600
  const RefreshLifetime := 2592000
  const MaxPending := 128
  const MaxTokens := 256
  const Scope := "kgos:access"

  datatype Authorization = Authorization(clientID: string, redirectURI: string, resource: string, state: string,
                                         challenge: string, expires: nat)

  datatype Grant = Grant(clientID: string, issuer: string, resource: string, scope: string, expires: nat)

  // ----- everything that ever happened

  datatype Approval = Approval(ticket: Secret, authorization: Authorization)

  // How a token pair came about: a code with the redirect and verifier presented along with it, or
  // the refresh token of an earlier pair (named by its access token).
  datatype Origin = FromCode(code: Secret, redirect: string, verifier: string) | FromRefresh(parent: Secret, refresh: Secret)

  datatype Issue = Issue(refresh: Secret, clientID: string, issuer: string, resource: string, scope: string, time: nat, origin: Origin)

  datatype Book = Book(
    begun: map<Secret, Authorization>,     // every ticket handed out
    decided: map<Secret, Option<Secret>>,  // tickets approved (with their code) or denied
    approvals: map<Secret, Approval>,      // every code handed out
    spentCodes: set<Secret>,               // codes presented, successfully or not
    spentRefresh: set<Secret>,             // refresh tokens presented, successfully or not
    issues: map<Secret, Issue>,            // every token pair, by its access token
    owner: map<Secret, Secret>,            // refresh tokens to the access token of their pair
    minted: nat)

  const EmptyBook := Book(map[], map[], map[], {}, {}, map[], map[], 0)

  function AccessGrant(i: Issue): Grant {
    Grant(i.clientID, i.issuer, i.resource, i.scope, i.time + AccessLifetime)
  }

  function RefreshGrant(i: Issue): Grant {
    Grant(i.clientID, i.issuer, i.resource, i.scope, i.time + RefreshLifetime)
  }

  // Secrets are drawn in sequence, so none below is drawn again.
  ghost predicate Below(secrets: set<Secret>, n: nat) {
    forall s :: s in secrets ==> s < n
  }

  ghost predicate Fresh(b: Book) {
    && Below(b.begun.Keys, b.minted) && Below(b.approvals.Keys, b.minted) && Below(b.issues.Keys, b.minted) && Below(b.owner.Keys, b.minted)
    && Below(b.spentCodes, b.minted) && Below(b.spentRefresh, b.minted)
  }

  predicate SameRequest(a: Authorization, t: Authorization) {
    && a.clientID == t.clientID && a.redirectURI == t.redirectURI && a.resource == t.resource
    && a.state == t.state && a.challenge == t.challenge
  }

  type BegunTickets = map<Secret, Authorization>

  // A code comes from one approved ticket, for the same request.
  ghost predicate CodeTraced(begun: BegunTickets, decided: map<Secret, Option<Secret>>, approvals: map<Secret, Approval>, c: Secret) {
    c in approvals ==>
      var approval := approvals[c];
      && approval.ticket in decided && decided[approval.ticket] == Some(c)
      && approval.ticket in begun && SameRequest(approval.authorization, begun[approval.ticket])
  }

  ghost predicate TicketTraced(begun: BegunTickets, decided: map<Secret, Option<Secret>>, approvals: map<Secret, Approval>, t: Secret) {
    t in decided ==> t in begun && (decided[t].Some? ==> decided[t].value in approvals)
  }

  ghost predicate CodesTraced(begun: BegunTickets, decided: map<Secret, Option<Secret>>, approvals: map<Secret, Approval>) {
    && (forall t {:trigger TicketTraced(begun, decided, approvals, t)} :: TicketTraced(begun, decided, approvals, t))
    && (forall c {:trigger CodeTraced(begun, decided, approvals, c)} :: CodeTraced(begun, decided, approvals, c))
  }

  // What justifies a pair at the time it is issued: a spent code, or a spent refresh token of an earlier pair.
  predicate Justifies(approvals: map<Secret, Approval>, spentCodes: set<Secret>, spentRefresh: set<Secret>, issues: map<Secret, Issue>,
                      s256: string -> string, i: Issue) {
    match i.origin
    case FromCode(code, redirect, verifier) =>
      && code in approvals && code in spentCodes
      && var authorization := approvals[code].authorization;
      && i.clientID == authorization.clientID && i.resource == authorization.resource && i.scope == Scope
      && redirect == authorization.redirectURI && s256(verifier) == authorization.challenge && i.time < authorization.expires
    case FromRefresh(parent, refresh) =>
      && parent in issues && refresh in spentRefresh && issues[parent].refresh == refresh
      && i.clientID == issues[parent].clientID && i.issuer == issues[parent].issuer
      && i.resource == issues[parent].resource && i.scope == issues[parent].scope
      && i.time < issues[parent].time + RefreshLifetime
  }

  // Two pairs from the same code or from the same refresh token.
  predicate SameSource(a: Origin, b: Origin) {
    (a.FromCode? && b.FromCode? && a.code == b.code) || (a.FromRefresh? && b.FromRefresh? && a.refresh == b.refresh)
  }

  ghost predicate PairJustified(b: Book, s256: string -> string, a: Secret) {
    a in b.issues ==>
      && Justifies(b.approvals, b.spentCodes, b.spentRefresh, b.issues, s256, b.issues[a])
      && (b.issues[a].origin.FromRefresh? ==> b.issues[a].origin.parent < a)
  }

  ghost predicate Justified(b: Book, s256: string -> string) {
    forall a {:trigger PairJustified(b, s256, a)} :: PairJustified(b, s256, a)
  }

  predicate Apart(issues: map<Secret, Issue>, a: Secret, c: Secret) {
    a in issues && c in issues && a != c ==> !SameSource(issues[a].origin, issues[c].origin)
  }

  ghost predicate Unrepeated(issues: map<Secret, Issue>) {
    forall a, c {:trigger Apart(issues, a, c)} :: Apart(issues, a, c)
  }

  predicate PairOwned(issues: map<Secret, Issue>, owner: map<Secret, Secret>, a: Secret) {
    a in issues ==> issues[a].refresh in owner && owner[issues[a].refresh] == a
  }

  predicate OwnerKnown(issues: map<Secret, Issue>, owner: map<Secret, Secret>, r: Secret) {
    r in owner ==> owner[r] in issues && issues[owner[r]].refresh == r
  }

  ghost predicate Owned(issues: map<Secret, Issue>, owner: map<Secret, Secret>) {
    && (forall a {:trigger PairOwned(issues, owner, a)} :: PairOwned(issues, owner, a))
    && (forall r {:trigger OwnerKnown(issues, owner, r)} :: OwnerKnown(issues, owner, r))
  }

  datatype Clause = SecretsFresh | CodesFromTickets | PairsJustified | SourcesOnce | RefreshOwned

  ghost predicate Says(clause: Clause, b: Book, s256: string -> string) {
    match clause
    case SecretsFresh => Fresh(b)
    case CodesFromTickets => CodesTraced(b.begun, b.decided, b.approvals)
    case PairsJustified => Justified(b, s256)
    case SourcesOnce => Unrepeated(b.issues)
    case RefreshOwned => Owned(b.issues, b.owner)
  }

  ghost predicate Sound(b: Book, s256: string -> string) {
    forall clause: Clause {:trigger Says(clause, b, s256)} :: Says(clause, b, s256)
  }

  lemma SoundMeans(b: Book, s256: string -> string)
    requires Sound(b, s256)
    ensures Fresh(b) && CodesTraced(b.begun, b.decided, b.approvals) && Justified(b, s256) && Unrepeated(b.issues) && Owned(b.issues, b.owner)
  {
    assert Says(SecretsFresh, b, s256);
    assert Says(CodesFromTickets, b, s256);
    assert Says(PairsJustified, b, s256);
    assert Says(SourcesOnce, b, s256);
    assert Says(RefreshOwned, b, s256);
  }

  lemma MeansSound(b: Book, s256: string -> string)
    requires Fresh(b) && CodesTraced(b.begun, b.decided, b.approvals) && Justified(b, s256) && Unrepeated(b.issues) && Owned(b.issues, b.owner)
    ensures Sound(b, s256)
  {
  }

  // ----- what is alive at a time

  predicate TicketAlive(b: Book, now: nat, t: Secret) {
    t in b.begun && t !in b.decided && b.begun[t].expires > now
  }

  predicate CodeAlive(b: Book, now: nat, c: Secret) {
    c in b.approvals && c !in b.spentCodes && b.approvals[c].authorization.expires > now
  }

  predicate AccessAlive(b: Book, now: nat, a: Secret) {
    a in b.issues && b.issues[a].time + AccessLifetime > now
  }

  predicate RefreshAlive(b: Book, now: nat, r: Secret) {
    r in b.owner && b.owner[r] in b.issues && r !in b.spentRefresh && b.issues[b.owner[r]].time + RefreshLifetime > now
  }

  // ----- one request

  function Begin(b: Book, a: Authorization): Book {
    b.(begun := b.begun[b.minted := a], minted := b.minted + 1)
  }

  function Deny(b: Book, t: Secret): Book {
    b.(decided := b.decided[t := None])
  }

  function Approve(b: Book, t: Secret, a: Authorization): Book {
    b.(decided := b.decided[t := Some(b.minted)], approvals := b.approvals[b.minted := Approval(t, a)], minted := b.minted + 1)
  }

  function SpendCode(b: Book, c: Secret): Book {
    if c < b.minted then b.(spentCodes := b.spentCodes + {c}) else b
  }

  function SpendRefresh(b: Book, r: Secret): Book {
    if r < b.minted then b.(spentRefresh := b.spentRefresh + {r}) else b
  }

  // The access secret is drawn first, the refresh secret next.
  function Paired(b: Book, g: Grant, time: nat, origin: Origin): Issue {
    Issue(b.minted + 1, g.clientID, g.issuer, g.resource, g.scope, time, origin)
  }

  function Pair(b: Book, g: Grant, time: nat, origin: Origin): Book {
    b.(issues := b.issues[b.minted := Paired(b, g, time, origin)], owner := b.owner[b.minted + 1 := b.minted], minted := b.minted + 2)
  }

  lemma BeginSound(b: Book, s256: string -> string, a: Authorization)
    requires Sound(b, s256)
    ensures Sound(Begin(b, a), s256)
  {
    SoundMeans(b, s256);
    var d := Begin(b, a);
    assert b.minted !in b.begun.Keys;
    forall t ensures TicketTraced(d.begun, d.decided, d.approvals, t) {
      assert TicketTraced(b.begun, b.decided, b.approvals, t);
    }
    forall c ensures CodeTraced(d.begun, d.decided, d.approvals, c) {
      assert CodeTraced(b.begun, b.decided, b.approvals, c);
    }
    forall k ensures PairJustified(d, s256, k) {
      assert PairJustified(b, s256, k);
    }
    MeansSound(d, s256);
  }

  lemma DenySound(b: Book, s256: string -> string, t: Secret)
    requires Sound(b, s256) && t in b.begun && t !in b.decided
    ensures Sound(Deny(b, t), s256)
  {
    SoundMeans(b, s256);
    var d := Deny(b, t);
    forall k ensures TicketTraced(d.begun, d.decided, d.approvals, k) {
      assert TicketTraced(b.begun, b.decided, b.approvals, k);
    }
    forall c ensures CodeTraced(d.begun, d.decided, d.approvals, c) {
      assert CodeTraced(b.begun, b.decided, b.approvals, c);
    }
    forall k ensures PairJustified(d, s256, k) {
      assert PairJustified(b, s256, k);
    }
    MeansSound(d, s256);
  }

  lemma JustifiesMore(b: Book, d: Book, s256: string -> string, i: Issue)
    requires Justifies(b.approvals, b.spentCodes, b.spentRefresh, b.issues, s256, i)
    requires b.spentCodes <= d.spentCodes && b.spentRefresh <= d.spentRefresh
    requires forall c :: c in b.approvals ==> c in d.approvals && d.approvals[c] == b.approvals[c]
    requires forall a :: a in b.issues ==> a in d.issues && d.issues[a] == b.issues[a]
    ensures Justifies(d.approvals, d.spentCodes, d.spentRefresh, d.issues, s256, i)
  {
  }

  lemma ApproveTraced(b: Book, s256: string -> string, t: Secret, a: Authorization)
    requires Sound(b, s256) && t in b.begun && t !in b.decided && SameRequest(a, b.begun[t])
    ensures CodesTraced(Approve(b, t, a).begun, Approve(b, t, a).decided, Approve(b, t, a).approvals)
  {
    SoundMeans(b, s256);
    var d := Approve(b, t, a);
    assert b.minted !in b.approvals.Keys;
    forall k ensures TicketTraced(d.begun, d.decided, d.approvals, k) {
      assert TicketTraced(b.begun, b.decided, b.approvals, k);
    }
    forall c ensures CodeTraced(d.begun, d.decided, d.approvals, c) {
      assert CodeTraced(b.begun, b.decided, b.approvals, c);
    }
  }

  lemma ApproveSound(b: Book, s256: string -> string, t: Secret, a: Authorization)
    requires Sound(b, s256) && t in b.begun && t !in b.decided && SameRequest(a, b.begun[t])
    ensures Sound(Approve(b, t, a), s256)
  {
    SoundMeans(b, s256);
    var d := Approve(b, t, a);
    ApproveTraced(b, s256, t, a);
    assert b.minted !in b.approvals.Keys;
    forall k ensures PairJustified(d, s256, k) {
      assert PairJustified(b, s256, k);
      if k in b.issues {
        JustifiesMore(b, d, s256, b.issues[k]);
      }
    }
    assert Fresh(d);
    MeansSound(d, s256);
  }

  lemma SpendCodeSound(b: Book, s256: string -> string, c: Secret)
    requires Sound(b, s256)
    ensures Sound(SpendCode(b, c), s256)
  {
    SoundMeans(b, s256);
    var d := SpendCode(b, c);
    forall k ensures PairJustified(d, s256, k) {
      assert PairJustified(b, s256, k);
      if k in b.issues {
        JustifiesMore(b, d, s256, b.issues[k]);
      }
    }
    assert Fresh(d);
    MeansSound(d, s256);
  }

  lemma SpendRefreshSound(b: Book, s256: string -> string, r: Secret)
    requires Sound(b, s256)
    ensures Sound(SpendRefresh(b, r), s256)
  {
    SoundMeans(b, s256);
    var d := SpendRefresh(b, r);
    forall k ensures PairJustified(d, s256, k) {
      assert PairJustified(b, s256, k);
      if k in b.issues {
        JustifiesMore(b, d, s256, b.issues[k]);
      }
    }
    assert Fresh(d);
    MeansSound(d, s256);
  }

  // The book has what justifies the next pair, and no pair of the same source.
  ghost predicate CanPair(b: Book, s256: string -> string, g: Grant, time: nat, origin: Origin) {
    && Justifies(b.approvals, b.spentCodes, b.spentRefresh, b.issues, s256, Paired(b, g, time, origin))
    && NewSource(b.issues, origin)
  }

  ghost predicate NewSource(issues: map<Secret, Issue>, origin: Origin) {
    forall a {:trigger issues[a]} :: a in issues ==> !SameSource(issues[a].origin, origin)
  }

  lemma PairOwners(b: Book, s256: string -> string, g: Grant, time: nat, origin: Origin)
    requires Sound(b, s256)
    ensures Owned(Pair(b, g, time, origin).issues, Pair(b, g, time, origin).owner)
  {
    SoundMeans(b, s256);
    var d := Pair(b, g, time, origin);
    assert b.minted !in b.issues.Keys && b.minted + 1 !in b.owner.Keys;
    forall a ensures PairOwned(d.issues, d.owner, a) {
      assert PairOwned(b.issues, b.owner, a);
    }
    forall r ensures OwnerKnown(d.issues, d.owner, r) {
      assert OwnerKnown(b.issues, b.owner, r);
    }
  }

  lemma PairApart(b: Book, s256: string -> string, g: Grant, time: nat, origin: Origin)
    requires Sound(b, s256) && NewSource(b.issues, origin)
    ensures Unrepeated(Pair(b, g, time, origin).issues)
  {
    SoundMeans(b, s256);
    var d := Pair(b, g, time, origin);
    forall a, c ensures Apart(d.issues, a, c) {
      assert Apart(b.issues, a, c);
    }
  }

  lemma PairSound(b: Book, s256: string -> string, g: Grant, time: nat, origin: Origin)
    requires Sound(b, s256) && CanPair(b, s256, g, time, origin)
    ensures Sound(Pair(b, g, time, origin), s256)
  {
    SoundMeans(b, s256);
    var d := Pair(b, g, time, origin);
    assert b.minted !in b.issues.Keys;
    PairOwners(b, s256, g, time, origin);
    PairApart(b, s256, g, time, origin);
    forall k ensures PairJustified(d, s256, k) {
      assert PairJustified(b, s256, k);
      if k in d.issues {
        if k == b.minted && origin.FromRefresh? {
          assert origin.parent in b.issues.Keys;
        }
        JustifiesMore(b, d, s256, d.issues[k]);
      }
    }
    assert Fresh(d);
    MeansSound(d, s256);
  }

  // ----- where a token comes from

  // The code at the start of a pair's rotations.
  ghost function RootCode(b: Book, s256: string -> string, a: Secret): Secret
    requires Sound(b, s256) && a in b.issues
    decreases a
  {
    SoundMeans(b, s256);
    assert PairJustified(b, s256, a);
    match b.issues[a].origin
    case FromCode(code, _, _) => code
    case FromRefresh(parent, _) => RootCode(b, s256, parent)
  }

  // The pair a presented code gave, with the redirect and verifier that came with it.
  ghost predicate Redeemed(b: Book, s256: string -> string, code: Secret, request: Authorization) {
    exists first {:trigger b.issues[first]} :: first in b.issues && b.issues[first].origin.FromCode? && b.issues[first].origin.code == code
      && b.issues[first].origin.redirect == request.redirectURI && s256(b.issues[first].origin.verifier) == request.challenge
  }

  // Every pair goes back through rotations to one approval, with the same client and resource, whose
  // redirect and S256 challenge were matched when its code was presented.
  lemma {:induction false} TracesToApproval(b: Book, s256: string -> string, a: Secret)
    requires Sound(b, s256) && a in b.issues
    ensures var code := RootCode(b, s256, a);
            && code in b.approvals && b.approvals[code].ticket in b.begun
            && var request := b.begun[b.approvals[code].ticket];
            && b.issues[a].clientID == request.clientID && b.issues[a].resource == request.resource && b.issues[a].scope == Scope
            && Redeemed(b, s256, code, request)
    decreases a
  {
    SoundMeans(b, s256);
    assert PairJustified(b, s256, a);
    match b.issues[a].origin
    case FromCode(code, _, _) =>
      assert CodeTraced(b.begun, b.decided, b.approvals, code);
    case FromRefresh(parent, _) =>
      TracesToApproval(b, s256, parent);
  }

  // A code gives at most one pair, a refresh token gives at most one pair.
  lemma OnePairEach(b: Book, s256: string -> string, a: Secret, c: Secret)
    requires Sound(b, s256) && a in b.issues && c in b.issues && SameSource(b.issues[a].origin, b.issues[c].origin)
    ensures a == c
  {
    SoundMeans(b, s256);
    assert Apart(b.issues, a, c);
  }

  // A ticket gives at most one code.
  lemma OneCodePerTicket(b: Book, s256: string -> string, c: Secret, d: Secret)
    requires Sound(b, s256) && c in b.approvals && d in b.approvals && b.approvals[c].ticket == b.approvals[d].ticket
    ensures c == d
  {
    SoundMeans(b, s256);
    assert CodeTraced(b.begun, b.decided, b.approvals, c) && CodeTraced(b.begun, b.decided, b.approvals, d);
  }
}

module OAuthBroker {
  import opened Outcomes
  import opened Sizes
  import opened OAuthBook

  datatype Fault = InvalidRequest | InvalidClient | InvalidGrant | UnsupportedGrantType | Unavailable | Gone

  datatype Answer<+T> = Granted(value: T) | Refused(fault: Fault)

  // A secret as a client presents it.
  datatype Presented = Malformed | Presented(secret: Secret)

  // The syntactic checks on a request's values.
  datatype Syntax = Syntax(clientID: string -> bool, redirect: string -> bool, state: string -> bool, challenge: string -> bool,
                           verifier: string -> bool)

  datatype AuthorizationRequest = AuthorizationRequest(
    clientID: string, redirect: string, state: string, challenge: string, responseType: string, challengeMethod: string,
    resource: string, scope: Option<string>)

  datatype TokenRequest =
    | CodeGrant(clientID: string, resource: string, code: Presented, redirect: string, verifier: string)
    | RefreshTokenGrant(clientID: string, resource: string, token: Presented)
    | OtherGrant(clientID: string, resource: string)

  function Unexpired<V>(m: map<Secret, V>, now: nat, expires: V -> nat): map<Secret, V> {
    map k | k in m && expires(m[k]) > now :: m[k]
  }

  // for key, value := range m { if !value.expires.After(now) { delete(m, key) } }
  method Pruned<V>(m: map<Secret, V>, now: nat, expires: V -> nat) returns (kept: map<Secret, V>)
    ensures kept == Unexpired(m, now, expires)
  {
    kept := m;
    var todo := m.Keys;
    while todo != {}
      invariant todo <= m.Keys
      invariant kept == map k | k in m && (k in todo || expires(m[k]) > now) :: m[k]
      decreases |todo|
    {
      var k :| k in todo;
      todo := todo - {k};
      if expires(m[k]) <= now {
        kept := kept - {k};
      }
    }
  }

  function RequestExpiry(a: Authorization): nat {
    a.expires
  }

  function GrantExpiry(g: Grant): nat {
    g.expires
  }

  // ----- what is stored

  datatype Store = Store(tickets: map<Secret, Authorization>, codes: map<Secret, Authorization>,
                         access: map<Secret, Grant>, refresh: map<Secret, Grant>, next: Secret)

  datatype Setting = Setting(issuer: string, resource: string, s256: string -> string)

  predicate IssueIsOurs(b: Book, c: Setting, a: Secret) {
    a in b.issues ==> b.issues[a].issuer == c.issuer && b.issues[a].resource == c.resource && b.issues[a].scope == Scope
  }

  // Every pair is for this broker.
  ghost predicate Ours(b: Book, c: Setting) {
    forall a {:trigger IssueIsOurs(b, c, a)} :: IssueIsOurs(b, c, a)
  }

  lemma OursSame(b: Book, d: Book, c: Setting)
    requires Ours(b, c) && d.issues == b.issues
    ensures Ours(d, c)
  {
    forall a ensures IssueIsOurs(d, c, a) {
      assert IssueIsOurs(b, c, a);
    }
  }

  // What is stored under a key is what the history leaves alive under it.
  ghost predicate TicketKept(s: Store, b: Book, now: nat, t: Secret) {
    (t in s.tickets <==> TicketAlive(b, now, t)) && (t in s.tickets ==> s.tickets[t] == b.begun[t])
  }

  ghost predicate CodeKept(s: Store, b: Book, now: nat, c: Secret) {
    (c in s.codes <==> CodeAlive(b, now, c)) && (c in s.codes ==> s.codes[c] == b.approvals[c].authorization)
  }

  ghost predicate AccessKept(s: Store, b: Book, now: nat, a: Secret) {
    (a in s.access <==> AccessAlive(b, now, a)) && (a in s.access ==> s.access[a] == AccessGrant(b.issues[a]))
  }

  ghost predicate RefreshKept(s: Store, b: Book, now: nat, r: Secret) {
    (r in s.refresh <==> RefreshAlive(b, now, r)) && (r in s.refresh ==> s.refresh[r] == RefreshGrant(b.issues[b.owner[r]]))
  }

  datatype Part = History | Purpose | Serial | TicketsKept | CodesKept | AccessTokensKept | RefreshTokensKept | Limits

  ghost predicate Has(part: Part, s: Store, b: Book, now: nat, c: Setting) {
    match part
    case History => Sound(b, c.s256)
    case Purpose => Ours(b, c)
    case Serial => s.next == b.minted
    case TicketsKept => forall k {:trigger TicketKept(s, b, now, k)} :: TicketKept(s, b, now, k)
    case CodesKept => forall k {:trigger CodeKept(s, b, now, k)} :: CodeKept(s, b, now, k)
    case AccessTokensKept => forall k {:trigger AccessKept(s, b, now, k)} :: AccessKept(s, b, now, k)
    case RefreshTokensKept => forall k {:trigger RefreshKept(s, b, now, k)} :: RefreshKept(s, b, now, k)
    case Limits => |s.tickets| <= MaxPending && |s.codes| <= MaxPending && |s.access| <= MaxTokens && |s.refresh| <= MaxTokens
  }

  // What is stored is exactly what the history leaves alive, within the limits.
  ghost predicate Kept(s: Store, b: Book, now: nat, c: Setting) {
    forall part: Part {:trigger Has(part, s, b, now, c)} :: Has(part, s, b, now, c)
  }

  lemma KeptMeans(s: Store, b: Book, now: nat, c: Setting)
    requires Kept(s, b, now, c)
    ensures Sound(b, c.s256) && Ours(b, c) && s.next == b.minted
    ensures |s.tickets| <= MaxPending && |s.codes| <= MaxPending && |s.access| <= MaxTokens && |s.refresh| <= MaxTokens
  {
    assert Has(History, s, b, now, c);
    assert Has(Purpose, s, b, now, c);
    assert Has(Serial, s, b, now, c);
    assert Has(Limits, s, b, now, c);
  }

  lemma KeptAt(s: Store, b: Book, now: nat, c: Setting, k: Secret)
    requires Kept(s, b, now, c)
    ensures TicketKept(s, b, now, k) && CodeKept(s, b, now, k) && AccessKept(s, b, now, k) && RefreshKept(s, b, now, k)
  {
    assert Has(TicketsKept, s, b, now, c);
    assert Has(CodesKept, s, b, now, c);
    assert Has(AccessTokensKept, s, b, now, c);
    assert Has(RefreshTokensKept, s, b, now, c);
  }

  ghost predicate AllKept(s: Store, b: Book, now: nat, k: Secret) {
    TicketKept(s, b, now, k) && CodeKept(s, b, now, k) && AccessKept(s, b, now, k) && RefreshKept(s, b, now, k)
  }

  lemma MeansKept(s: Store, b: Book, now: nat, c: Setting)
    requires Sound(b, c.s256) && Ours(b, c) && s.next == b.minted
    requires forall k {:trigger AllKept(s, b, now, k)} :: AllKept(s, b, now, k)
    requires |s.tickets| <= MaxPending && |s.codes| <= MaxPending && |s.access| <= MaxTokens && |s.refresh| <= MaxTokens
    ensures Kept(s, b, now, c)
  {
    forall part: Part ensures Has(part, s, b, now, c) {
      forall k ensures TicketKept(s, b, now, k) && CodeKept(s, b, now, k) && AccessKept(s, b, now, k) && RefreshKept(s, b, now, k) {
        assert AllKept(s, b, now, k);
      }
    }
  }

  lemma EmptyKept(c: Setting)
    ensures Kept(Store(map[], map[], map[], map[], 0), EmptyBook, 0, c)
  {
    MeansSound(EmptyBook, c.s256);
    MeansKept(Store(map[], map[], map[], map[], 0), EmptyBook, 0, c);
  }

  function PrunedStore(s: Store, now: nat): Store {
    Store(Unexpired(s.tickets, now, RequestExpiry), Unexpired(s.codes, now, RequestExpiry), Unexpired(s.access, now, GrantExpiry), Unexpired(s.refresh, now, GrantExpiry), s.next)
  }

  lemma UnexpiredTwice<V(!new)>(m: map<Secret, V>, gone: set<Secret>, now: nat, expires: V -> nat)
    ensures Unexpired(Unexpired(m, now, expires) - gone, now, expires) == Unexpired(m - gone, now, expires)
  {
  }

  // The refresh token a request presents.
  function PresentedRefresh(q: TokenRequest): set<Secret> {
    if q.RefreshTokenGrant? && q.token.Presented? then {q.token.secret} else {}
  }

  // There is room for a pair once the expired ones and the presented token are gone.
  predicate RoomFor(s: Store, q: TokenRequest, now: nat) {
    |Unexpired(s.access, now, GrantExpiry)| < MaxTokens && |Unexpired(s.refresh - PresentedRefresh(q), now, GrantExpiry)| < MaxTokens
  }

  lemma RoomAfterPruning(s: Store, q: TokenRequest, now: nat)
    ensures RoomFor(PrunedStore(s, now), q, now) <==> RoomFor(s, q, now)
  {
    UnexpiredTwice(s.access, {}, now, GrantExpiry);
    UnexpiredTwice(s.refresh, PresentedRefresh(q), now, GrantExpiry);
    assert s.access - {} == s.access && Unexpired(s.access, now, GrantExpiry) - {} == Unexpired(s.access, now, GrantExpiry);
  }

  lemma RoomForCode(s: Store, q: TokenRequest, now: nat)
    requires q.CodeGrant?
    ensures RoomFor(s, q, now) <==> |Unexpired(s.access, now, GrantExpiry)| < MaxTokens && |Unexpired(s.refresh, now, GrantExpiry)| < MaxTokens
  {
    assert s.refresh - {} == s.refresh;
  }

  lemma PrunedSmaller(s: Store, now: nat)
    ensures var p := PrunedStore(s, now);
            |p.tickets| <= |s.tickets| && |p.codes| <= |s.codes| && |p.access| <= |s.access| && |p.refresh| <= |s.refresh|
  {
    FewerKeys(s.tickets, Unexpired(s.tickets, now, RequestExpiry));
    FewerKeys(s.codes, Unexpired(s.codes, now, RequestExpiry));
    FewerKeys(s.access, Unexpired(s.access, now, GrantExpiry));
    FewerKeys(s.refresh, Unexpired(s.refresh, now, GrantExpiry));
  }

  lemma PruneKeeps(s: Store, b: Book, earlier: nat, now: nat, c: Setting)
    requires Kept(s, b, earlier, c) && earlier <= now
    ensures Kept(PrunedStore(s, now), b, now, c)
  {
    KeptMeans(s, b, earlier, c);
    PrunedSmaller(s, now);
    forall k ensures AllKept(PrunedStore(s, now), b, now, k) {
      KeptAt(s, b, earlier, c, k);
    }
    MeansKept(PrunedStore(s, now), b, now, c);
  }

  // Nothing is recorded under a secret not drawn yet.
  lemma Undrawn(b: Book, s256: string -> string, k: Secret)
    requires Sound(b, s256) && k >= b.minted
    ensures k !in b.begun && k !in b.decided && k !in b.approvals && k !in b.issues && k !in b.owner && k !in b.spentCodes && k !in b.spentRefresh
  {
    SoundMeans(b, s256);
    assert k !in b.begun.Keys && k !in b.approvals.Keys && k !in b.issues.Keys && k !in b.owner.Keys;
    assert TicketTraced(b.begun, b.decided, b.approvals, k);
  }

  lemma BeginKeeps(s: Store, b: Book, now: nat, c: Setting, a: Authorization)
    requires Kept(s, b, now, c) && a.expires > now && |s.tickets| < MaxPending
    ensures Kept(s.(tickets := s.tickets[s.next := a], next := s.next + 1), Begin(b, a), now, c)
  {
    var t := s.(tickets := s.tickets[s.next := a], next := s.next + 1);
    KeptMeans(s, b, now, c);
    OursSame(b, Begin(b, a), c);
    BeginSound(b, c.s256, a);
    Undrawn(b, c.s256, b.minted);
    OneMoreKey(s.tickets, s.next, a);
    forall k ensures AllKept(t, Begin(b, a), now, k) {
      KeptAt(s, b, now, c, k);
    }
    MeansKept(t, Begin(b, a), now, c);
  }

  lemma DenyKeeps(s: Store, b: Book, now: nat, c: Setting, t: Secret)
    requires Kept(s, b, now, c) && t in s.tickets
    ensures Kept(s.(tickets := s.tickets - {t}), Deny(b, t), now, c)
  {
    KeptMeans(s, b, now, c);
    OursSame(b, Deny(b, t), c);
    KeptAt(s, b, now, c, t);
    DenySound(b, c.s256, t);
    FewerKeys(s.tickets, s.tickets - {t});
    forall k ensures AllKept(s.(tickets := s.tickets - {t}), Deny(b, t), now, k) {
      KeptAt(s, b, now, c, k);
    }
    MeansKept(s.(tickets := s.tickets - {t}), Deny(b, t), now, c);
  }

  lemma ApproveKeeps(s: Store, b: Book, now: nat, c: Setting, t: Secret, a: Authorization)
    requires Kept(s, b, now, c) && t in s.tickets && |s.codes| < MaxPending && a.expires > now && SameRequest(a, s.tickets[t])
    ensures Kept(s.(tickets := s.tickets - {t}, codes := s.codes[s.next := a], next := s.next + 1), Approve(b, t, a), now, c)
  {
    var u := s.(tickets := s.tickets - {t}, codes := s.codes[s.next := a], next := s.next + 1);
    KeptMeans(s, b, now, c);
    OursSame(b, Approve(b, t, a), c);
    KeptAt(s, b, now, c, t);
    ApproveSound(b, c.s256, t, a);
    Undrawn(b, c.s256, b.minted);
    FewerKeys(s.tickets, s.tickets - {t});
    OneMoreKey(s.codes, s.next, a);
    forall k ensures AllKept(u, Approve(b, t, a), now, k) {
      KeptAt(s, b, now, c, k);
    }
    MeansKept(u, Approve(b, t, a), now, c);
  }

  lemma SpendCodeKeepsEach(s: Store, b: Book, now: nat, c: Setting, code: Secret, k: Secret)
    requires Kept(s, b, now, c)
    ensures AllKept(s.(codes := s.codes - {code}), SpendCode(b, code), now, k)
  {
    KeptMeans(s, b, now, c);
    KeptAt(s, b, now, c, k);
    if code >= b.minted {
      Undrawn(b, c.s256, code);
    }
  }

  lemma SpendRefreshKeepsEach(s: Store, b: Book, now: nat, c: Setting, r: Secret, k: Secret)
    requires Kept(s, b, now, c)
    ensures AllKept(s.(refresh := s.refresh - {r}), SpendRefresh(b, r), now, k)
  {
    KeptMeans(s, b, now, c);
    KeptAt(s, b, now, c, k);
    if r >= b.minted {
      Undrawn(b, c.s256, r);
    }
  }

  lemma SpendCodeKeeps(s: Store, b: Book, now: nat, c: Setting, code: Secret)
    requires Kept(s, b, now, c)
    ensures Kept(s.(codes := s.codes - {code}), SpendCode(b, code), now, c)
  {
    KeptMeans(s, b, now, c);
    OursSame(b, SpendCode(b, code), c);
    SpendCodeSound(b, c.s256, code);
    FewerKeys(s.codes, s.codes - {code});
    forall k ensures AllKept(s.(codes := s.codes - {code}), SpendCode(b, code), now, k) {
      SpendCodeKeepsEach(s, b, now, c, code, k);
    }
    MeansKept(s.(codes := s.codes - {code}), SpendCode(b, code), now, c);
  }

  lemma SpendRefreshKeeps(s: Store, b: Book, now: nat, c: Setting, r: Secret)
    requires Kept(s, b, now, c)
    ensures Kept(s.(refresh := s.refresh - {r}), SpendRefresh(b, r), now, c)
  {
    KeptMeans(s, b, now, c);
    OursSame(b, SpendRefresh(b, r), c);
    SpendRefreshSound(b, c.s256, r);
    FewerKeys(s.refresh, s.refresh - {r});
    forall k ensures AllKept(s.(refresh := s.refresh - {r}), SpendRefresh(b, r), now, k) {
      SpendRefreshKeepsEach(s, b, now, c, r, k);
    }
    MeansKept(s.(refresh := s.refresh - {r}), SpendRefresh(b, r), now, c);
  }

  function WithPair(s: Store, g: Grant, now: nat): Store {
    s.(access := s.access[s.next := g.(expires := now + AccessLifetime)],
       refresh := s.refresh[s.next + 1 := g.(expires := now + RefreshLifetime)], next := s.next + 2)
  }

  predicate GrantOurs(g: Grant, c: Setting) {
    g.issuer == c.issuer && g.resource == c.resource && g.scope == Scope
  }

  lemma PairKeepsOthers(s: Store, b: Book, now: nat, c: Setting, g: Grant, origin: Origin, k: Secret)
    requires Kept(s, b, now, c)
    ensures TicketKept(WithPair(s, g, now), Pair(b, g, now, origin), now, k) && CodeKept(WithPair(s, g, now), Pair(b, g, now, origin), now, k)
  {
    KeptMeans(s, b, now, c);
    KeptAt(s, b, now, c, k);
  }

  lemma PairKeepsAccess(s: Store, b: Book, now: nat, c: Setting, g: Grant, origin: Origin, k: Secret)
    requires Kept(s, b, now, c)
    ensures AccessKept(WithPair(s, g, now), Pair(b, g, now, origin), now, k)
  {
    KeptMeans(s, b, now, c);
    KeptAt(s, b, now, c, k);
  }

  lemma PairKeepsRefresh(s: Store, b: Book, now: nat, c: Setting, g: Grant, origin: Origin, k: Secret)
    requires Kept(s, b, now, c)
    ensures RefreshKept(WithPair(s, g, now), Pair(b, g, now, origin), now, k)
  {
    KeptMeans(s, b, now, c);
    KeptAt(s, b, now, c, k);
    Undrawn(b, c.s256, b.minted);
    Undrawn(b, c.s256, b.minted + 1);
    SoundMeans(b, c.s256);
    assert OwnerKnown(b.issues, b.owner, k);
  }

  lemma PairKeepsEach(s: Store, b: Book, now: nat, c: Setting, g: Grant, origin: Origin, k: Secret)
    requires Kept(s, b, now, c)
    ensures AllKept(WithPair(s, g, now), Pair(b, g, now, origin), now, k)
  {
    PairKeepsOthers(s, b, now, c, g, origin, k);
    PairKeepsAccess(s, b, now, c, g, origin, k);
    PairKeepsRefresh(s, b, now, c, g, origin, k);
  }

  lemma PairOurs(b: Book, now: nat, c: Setting, g: Grant, origin: Origin)
    requires Ours(b, c) && GrantOurs(g, c)
    ensures Ours(Pair(b, g, now, origin), c)
  {
    forall a ensures IssueIsOurs(Pair(b, g, now, origin), c, a) {
      assert IssueIsOurs(b, c, a);
    }
  }

  lemma PairKeeps(s: Store, b: Book, now: nat, c: Setting, g: Grant, origin: Origin)
    requires Kept(s, b, now, c) && CanPair(b, c.s256, g, now, origin) && GrantOurs(g, c)
    requires |s.access| < MaxTokens && |s.refresh| < MaxTokens
    ensures Kept(WithPair(s, g, now), Pair(b, g, now, origin), now, c)
  {
    KeptMeans(s, b, now, c);
    PairOurs(b, now, c, g, origin);
    PairSound(b, c.s256, g, now, origin);
    OneMoreKey(s.access, s.next, g.(expires := now + AccessLifetime));
    OneMoreKey(s.refresh, s.next + 1, g.(expires := now + RefreshLifetime));
    forall k ensures AllKept(WithPair(s, g, now), Pair(b, g, now, origin), now, k) {
      PairKeepsEach(s, b, now, c, g, origin, k);
    }
    MeansKept(WithPair(s, g, now), Pair(b, g, now, origin), now, c);
  }

  // A live code that is matched justifies a pair once it is spent, and has given none before.
  lemma CodeCanPair(b: Book, s256: string -> string, code: Secret, now: nat, redirect: string, verifier: string, g: Grant)
    requires Sound(b, s256) && CodeAlive(b, now, code)
    requires var a := b.approvals[code].authorization;
             g.clientID == a.clientID && g.resource == a.resource && g.scope == Scope && redirect == a.redirectURI && s256(verifier) == a.challenge
    ensures CanPair(SpendCode(b, code), s256, g, now, FromCode(code, redirect, verifier))
  {
    SoundMeans(b, s256);
    assert code in b.approvals.Keys;
    forall k | k in b.issues ensures !SameSource(b.issues[k].origin, FromCode(code, redirect, verifier)) {
      assert PairJustified(b, s256, k);
    }
  }

  lemma RefreshCanPair(b: Book, s256: string -> string, r: Secret, now: nat)
    requires Sound(b, s256) && RefreshAlive(b, now, r)
    ensures CanPair(SpendRefresh(b, r), s256, RefreshGrant(b.issues[b.owner[r]]), now, FromRefresh(b.owner[r], r))
  {
    SoundMeans(b, s256);
    assert r in b.owner.Keys;
    assert OwnerKnown(b.issues, b.owner, r);
    forall k | k in b.issues ensures !SameSource(b.issues[k].origin, FromRefresh(b.owner[r], r)) {
      assert PairJustified(b, s256, k);
    }
  }

  lemma IssueOurs(s: Store, b: Book, now: nat, c: Setting, a: Secret)
    requires Kept(s, b, now, c) && a in b.issues
    ensures b.issues[a].issuer == c.issuer && b.issues[a].resource == c.resource && b.issues[a].scope == Scope
  {
    KeptMeans(s, b, now, c);
    assert IssueIsOurs(b, c, a);
  }

  // ----- the broker

  class Broker {
    const issuer: string
    const resource: string
    const syntax: Syntax
    const s256: string -> string
    var tickets: map<Secret, Authorization>
    var codes: map<Secret, Authorization>
    var access: map<Secret, Grant>
    var refresh: map<Secret, Grant>
    var next: Secret
    ghost var book: Book
    ghost var clock: nat

    ghost function Stored(): Store
      reads this
    {
      Store(tickets, codes, access, refresh, next)
    }

    ghost function Config(): Setting {
      Setting(issuer, resource, s256)
    }

    ghost predicate Valid()
      reads this
    {
      Kept(Stored(), book, clock, Config())
    }

    constructor (issuer: string, syntax: Syntax, s256: string -> string)
      ensures Valid() && book == EmptyBook && clock == 0 && this.issuer == issuer && this.resource == issuer && this.s256 == s256
    {
      this.issuer, this.resource, this.syntax, this.s256 := issuer, issuer, syntax, s256;
      tickets, codes, access, refresh := map[], map[], map[], map[];
      next, book, clock := 0, EmptyBook, 0;
      EmptyKept(Setting(issuer, issuer, s256));
    }

    method PruneLocked(now: nat)
      requires Valid() && clock <= now
      modifies this`tickets, this`codes, this`access, this`refresh, this`clock
      ensures Valid() && clock == now && Stored() == PrunedStore(old(Stored()), now)
    {
      PruneKeeps(Stored(), book, clock, now, Config());
      tickets := Pruned(tickets, now, RequestExpiry);
      codes := Pruned(codes, now, RequestExpiry);
      access := Pruned(access, now, GrantExpiry);
      refresh := Pruned(refresh, now, GrantExpiry);
      clock := now;
    }

    // Whether a ticket can be started at all.
    ghost predicate Acceptable(q: AuthorizationRequest) {
      && syntax.clientID(q.clientID) && syntax.redirect(q.redirect) && syntax.state(q.state) && syntax.challenge(q.challenge)
      && q.responseType == "code" && q.challengeMethod == "S256" && q.resource == resource && (q.scope.None? || q.scope == Some(Scope))
    }

    ghost function Asked(q: AuthorizationRequest, now: nat): Authorization {
      Authorization(q.clientID, q.redirect, resource, q.state, q.challenge, now + TicketLifetime)
    }

    // redirects is what the client's metadata document lists, if it could be had.
    method BeginAuthorization(now: nat, q: AuthorizationRequest, redirects: Option<seq<string>>, random: bool) returns (r: Answer<Secret>)
      requires Valid() && clock <= now
      modifies this
      ensures Valid() && clock <= now
      ensures r.Granted? ==>
                && Acceptable(q) && redirects.Some? && q.redirect in redirects.value
                && r.value == old(next) && book == Begin(old(book), Asked(q, now))
      ensures r.Refused? ==> book == old(book)
      ensures Acceptable(q) && redirects.Some? && q.redirect in redirects.value && random && r.Refused? ==>
                r.fault == Unavailable && clock == now && (|tickets| == MaxPending || |codes| == MaxPending)
    {
      if !syntax.clientID(q.clientID) || !syntax.redirect(q.redirect) || !syntax.state(q.state) || !syntax.challenge(q.challenge) {
        return Refused(InvalidRequest);
      }
      if q.responseType != "code" || q.challengeMethod != "S256" || q.resource != resource || (q.scope.Some? && q.scope.value != Scope) {
        return Refused(InvalidRequest);
      }
      if redirects.None? || q.redirect !in redirects.value {
        return Refused(InvalidClient);
      }
      if !random {
        return Refused(Unavailable);
      }
      PruneLocked(now);
      KeptMeans(Stored(), book, now, Config());
      if |tickets| >= MaxPending || |codes| >= MaxPending {
        return Refused(Unavailable);
      }
      var ticket := AddTicket(now, Authorization(q.clientID, q.redirect, resource, q.state, q.challenge, now + TicketLifetime));
      return Granted(ticket);
    }

    method AddTicket(now: nat, a: Authorization) returns (ticket: Secret)
      requires Valid() && clock == now && a.expires > now && |tickets| < MaxPending
      modifies this`tickets, this`next, this`book
      ensures Valid() && ticket == old(next) && book == Begin(old(book), a)
    {
      BeginKeeps(Stored(), book, now, Config(), a);
      ticket := next;
      tickets := tickets[next := a];
      next, book := next + 1, Begin(book, a);
    }

    // A live ticket is decided once; approving it hands out a code.
    method FinishAuthorization(now: nat, requestID: Presented, approve: bool, random: bool) returns (r: Answer<Option<Secret>>)
      requires Valid() && clock <= now
      modifies this
      ensures Valid() && clock <= now
      ensures r.Granted? ==> requestID.Presented? && TicketAlive(old(book), now, requestID.secret)
      ensures r.Granted? && !approve ==> r.value == None && book == Deny(old(book), requestID.secret)
      ensures r.Granted? && approve ==>
                && r.value == Some(old(next))
                && book == Approve(old(book), requestID.secret, old(book).begun[requestID.secret].(expires := now + CodeLifetime))
      ensures r.Refused? ==> book == old(book)
      ensures requestID.Presented? && TicketAlive(book, now, requestID.secret) && random && r.Refused? ==>
                approve && r.fault == Unavailable && clock == now && |codes| == MaxPending
    {
      if requestID.Malformed? {
        return Refused(InvalidRequest);
      }
      PruneLocked(now);
      var key := requestID.secret;
      KeptMeans(Stored(), book, now, Config());
      KeptAt(Stored(), book, now, Config(), key);
      if key !in tickets {
        return Refused(Gone);
      }
      if !approve {
        DropTicket(key);
        return Granted(None);
      }
      if |codes| >= MaxPending {
        return Refused(Unavailable);
      }
      if !random {
        return Refused(Unavailable);
      }
      var code := TurnIntoCode(now, key);
      return Granted(Some(code));
    }

    method DropTicket(key: Secret)
      requires Valid() && key in tickets
      modifies this`tickets, this`book
      ensures Valid() && book == Deny(old(book), key)
    {
      DenyKeeps(Stored(), book, clock, Config(), key);
      tickets, book := tickets - {key}, Deny(book, key);
    }

    method TurnIntoCode(now: nat, key: Secret) returns (code: Secret)
      requires Valid() && clock == now && key in tickets && |codes| < MaxPending
      modifies this`tickets, this`codes, this`next, this`book
      ensures Valid() && code == old(next)
      ensures book == Approve(old(book), key, old(tickets)[key].(expires := now + CodeLifetime))
    {
      var pending := tickets[key].(expires := now + CodeLifetime);
      ApproveKeeps(Stored(), book, now, Config(), key, pending);
      code := next;
      tickets, codes := tickets - {key}, codes[next := pending];
      next, book := next + 1, Approve(book, key, pending);
    }

    // The code as presented matches its authorization.
    ghost predicate Matches(pending: Authorization, q: TokenRequest)
      requires q.CodeGrant?
    {
      && pending.clientID == q.clientID && pending.resource == q.resource && pending.redirectURI == q.redirect
      && syntax.verifier(q.verifier) && s256(q.verifier) == pending.challenge
    }

    // The request presents a live code or refresh token and matches what it was issued for.
    ghost predicate Redeemable(q: TokenRequest, now: nat)
      reads this
    {
      match q
      case CodeGrant(_, _, code, _, _) => code.Presented? && CodeAlive(book, now, code.secret) && Matches(book.approvals[code.secret].authorization, q)
      case RefreshTokenGrant(clientID, _, token) =>
        token.Presented? && RefreshAlive(book, now, token.secret) && book.issues[book.owner[token.secret]].clientID == clientID
      case OtherGrant(_, _) => false
    }

    // A presented code is spent whatever becomes of the request.
    method RedeemCode(now: nat, q: TokenRequest) returns (r: Answer<Grant>, ghost origin: Origin)
      requires Valid() && clock == now && q.CodeGrant? && q.code.Presented? && q.resource == resource
      modifies this`codes, this`book
      ensures Valid() && book == SpendCode(old(book), q.code.secret)
      ensures r.Granted? <==> old(Redeemable(q, now))
      ensures r.Refused? ==> r.fault == InvalidGrant
      ensures r.Granted? ==>
                && GrantOurs(r.value, Config())
                && origin == FromCode(q.code.secret, q.redirect, q.verifier) && r.value.clientID == q.clientID && CanPair(book, s256, r.value, now, origin)
    {
      origin := FromCode(q.code.secret, q.redirect, q.verifier);
      var key := q.code.secret;
      KeptMeans(Stored(), book, now, Config());
      KeptAt(Stored(), book, now, Config(), key);
      SpendCodeKeeps(Stored(), book, now, Config(), key);
      var live := key in codes;
      var pending := if live then codes[key] else Authorization("", "", "", "", "", 0);
      ghost var before := book;
      codes, book := codes - {key}, SpendCode(book, key);
      if !live || pending.clientID != q.clientID || pending.resource != q.resource || pending.redirectURI != q.redirect {
        return Refused(InvalidGrant), origin;
      }
      if !syntax.verifier(q.verifier) || s256(q.verifier) != pending.challenge {
        return Refused(InvalidGrant), origin;
      }
      var grant := Grant(q.clientID, issuer, resource, Scope, 0);
      CodeCanPair(before, s256, key, now, q.redirect, q.verifier, grant);
      return Granted(grant), origin;
    }

    // So is a presented refresh token.
    method RedeemRefresh(now: nat, q: TokenRequest) returns (r: Answer<Grant>, ghost origin: Origin)
      requires Valid() && clock == now && q.RefreshTokenGrant? && q.token.Presented? && q.resource == resource
      modifies this`refresh, this`book
      ensures Valid() && book == SpendRefresh(old(book), q.token.secret) && refresh == old(refresh) - {q.token.secret}
      ensures r.Granted? <==> old(Redeemable(q, now))
      ensures r.Refused? ==> r.fault == InvalidGrant
      ensures r.Granted? ==>
                && GrantOurs(r.value, Config())
                && origin.FromRefresh? && origin.refresh == q.token.secret && r.value.clientID == q.clientID && CanPair(book, s256, r.value, now, origin)
    {
      var key := q.token.secret;
      origin := FromRefresh(if key in book.owner then book.owner[key] else 0, key);
      KeptMeans(Stored(), book, now, Config());
      KeptAt(Stored(), book, now, Config(), key);
      if key in refresh {
        IssueOurs(Stored(), book, now, Config(), book.owner[key]);
      }
      SpendRefreshKeeps(Stored(), book, now, Config(), key);
      var live := key in refresh;
      var previous := if live then refresh[key] else Grant("", "", "", "", 0);
      ghost var before := book;
      refresh, book := refresh - {key}, SpendRefresh(book, key);
      if !live || previous.clientID != q.clientID || previous.issuer != issuer || previous.resource != q.resource || previous.scope != Scope {
        return Refused(InvalidGrant), origin;
      }
      RefreshCanPair(before, s256, key, now);
      return Granted(previous), origin;
    }

    method IssueGrantLocked(now: nat, grant: Grant, random: bool, ghost origin: Origin) returns (r: Answer<(Secret, Secret)>)
      requires Valid() && clock == now && CanPair(book, s256, grant, now, origin) && GrantOurs(grant, Config())
      modifies this
      ensures Valid() && clock == now
      ensures r.Granted? ==> r.value == (old(next), old(next) + 1) && old(next) == old(book).minted && book == Pair(old(book), grant, now, origin)
      ensures r.Refused? ==> r.fault == Unavailable && book == old(book)
      ensures r.Granted? <==> random && |Unexpired(old(access), now, GrantExpiry)| < MaxTokens && |Unexpired(old(refresh), now, GrantExpiry)| < MaxTokens
    {
      PruneLocked(now);
      KeptMeans(Stored(), book, now, Config());
      if |access| >= MaxTokens || |refresh| >= MaxTokens {
        return Refused(Unavailable);
      }
      if !random {
        return Refused(Unavailable);
      }
      var pair := AddPair(now, grant, origin);
      return Granted(pair);
    }

    method AddPair(now: nat, grant: Grant, ghost origin: Origin) returns (pair: (Secret, Secret))
      requires Valid() && clock == now && CanPair(book, s256, grant, now, origin) && GrantOurs(grant, Config())
      requires |access| < MaxTokens && |refresh| < MaxTokens
      modifies this`access, this`refresh, this`next, this`book
      ensures Valid() && pair == (old(next), old(next) + 1) && book == Pair(old(book), grant, now, origin)
    {
      ghost var before := Stored();
      PairKeeps(before, book, now, Config(), grant, origin);
      KeptMeans(before, book, now, Config());
      pair := (next, next + 1);
      access := access[next := grant.(expires := now + AccessLifetime)];
      refresh := refresh[next + 1 := grant.(expires := now + RefreshLifetime)];
      next, book := next + 2, Pair(book, grant, now, origin);
      assert Stored() == WithPair(before, grant, now);
    }

    // What a granted request for a code leaves in the book.
    ghost predicate CodeIssued(before: Book, q: TokenRequest, pair: (Secret, Secret), now: nat)
      requires q.CodeGrant?
      reads this
    {
      && q.code.Presented? && CodeAlive(before, now, q.code.secret) && Matches(before.approvals[q.code.secret].authorization, q)
      && book.issues == before.issues[pair.0 := Issue(pair.1, q.clientID, issuer, resource, Scope, now, FromCode(q.code.secret, q.redirect, q.verifier))]
    }

    ghost predicate RefreshIssued(before: Book, q: TokenRequest, pair: (Secret, Secret), now: nat)
      requires q.RefreshTokenGrant?
      reads this
    {
      && q.token.Presented? && RefreshAlive(before, now, q.token.secret)
      && pair.0 in book.issues
      && var i := book.issues[pair.0];
      && book.issues == before.issues[pair.0 := i]
      && i.refresh == pair.1 && i.clientID == q.clientID && i.time == now && i.origin.FromRefresh? && i.origin.refresh == q.token.secret
    }

    // A pair is granted exactly for what matches, with room and randomness.
    method IssueToken(now: nat, q: TokenRequest, random: bool) returns (r: Answer<(Secret, Secret)>)
      requires Valid() && clock <= now
      modifies this
      ensures Valid() && clock <= now
      ensures r.Granted? <==>
                && syntax.clientID(q.clientID) && q.resource == resource && old(Redeemable(q, now))
                && random && RoomFor(old(Stored()), q, now)
      ensures syntax.clientID(q.clientID) && q.resource == resource && r.Refused? && !q.OtherGrant? ==>
                r.fault == if old(Redeemable(q, now)) then Unavailable else InvalidGrant
      ensures r.Granted? && q.CodeGrant? ==> CodeIssued(old(book), q, r.value, now)
      ensures r.Granted? && q.RefreshTokenGrant? ==> RefreshIssued(old(book), q, r.value, now)
      ensures r.Granted? ==> !q.OtherGrant?
      ensures r.Refused? ==> book.issues == old(book).issues
      ensures book.begun == old(book).begun && book.decided == old(book).decided && book.approvals == old(book).approvals
    {
      if !syntax.clientID(q.clientID) || q.resource != resource {
        return Refused(InvalidClient);
      }
      if q.OtherGrant? {
        return Refused(UnsupportedGrantType);
      }
      RoomAfterPruning(Stored(), q, now);
      PruneLocked(now);
      if q.CodeGrant? {
        r := IssueForCode(now, q, random);
      } else {
        r := IssueForRefresh(now, q, random);
      }
    }

    lemma PairedIsCodeIssued(before: Book, q: TokenRequest, grant: Grant, pair: (Secret, Secret), now: nat, origin: Origin)
      requires q.CodeGrant? && q.code.Presented? && CodeAlive(before, now, q.code.secret) && Matches(before.approvals[q.code.secret].authorization, q)
      requires GrantOurs(grant, Config()) && grant.clientID == q.clientID && origin == FromCode(q.code.secret, q.redirect, q.verifier)
      requires book == Pair(SpendCode(before, q.code.secret), grant, now, origin) && pair == (before.minted, before.minted + 1)
      ensures CodeIssued(before, q, pair, now)
    {
    }

    // What a request never changes.
    ghost predicate OnlyIssues(before: Book)
      reads this
    {
      book.begun == before.begun && book.decided == before.decided && book.approvals == before.approvals
    }

    method GrantForCode(now: nat, q: TokenRequest, grant: Grant, random: bool, ghost origin: Origin, ghost before: Book) returns (r: Answer<(Secret, Secret)>)
      requires Valid() && clock == now && CanPair(book, s256, grant, now, origin) && GrantOurs(grant, Config())
      requires q.CodeGrant? && q.code.Presented? && CodeAlive(before, now, q.code.secret) && Matches(before.approvals[q.code.secret].authorization, q)
      requires book == SpendCode(before, q.code.secret) && grant.clientID == q.clientID && origin == FromCode(q.code.secret, q.redirect, q.verifier)
      modifies this
      ensures Valid() && clock == now && OnlyIssues(before)
      ensures r.Granted? <==> random && |Unexpired(old(access), now, GrantExpiry)| < MaxTokens && |Unexpired(old(refresh), now, GrantExpiry)| < MaxTokens
      ensures r.Granted? ==> CodeIssued(before, q, r.value, now)
      ensures r.Refused? ==> r.fault == Unavailable && book.issues == before.issues
    {
      r := IssueGrantLocked(now, grant, random, origin);
      if r.Granted? {
        PairedIsCodeIssued(before, q, grant, r.value, now, origin);
      }
    }

    method IssueForCode(now: nat, q: TokenRequest, random: bool) returns (r: Answer<(Secret, Secret)>)
      requires Valid() && clock == now && q.CodeGrant? && q.resource == resource
      modifies this
      ensures Valid() && clock == now
      ensures r.Granted? <==> old(Redeemable(q, now)) && random && RoomFor(old(Stored()), q, now)
      ensures r.Refused? ==> r.fault == if old(Redeemable(q, now)) then Unavailable else InvalidGrant
      ensures r.Granted? ==> CodeIssued(old(book), q, r.value, now)
      ensures r.Refused? ==> book.issues == old(book).issues
      ensures book.begun == old(book).begun && book.decided == old(book).decided && book.approvals == old(book).approvals
    {
      if q.code.Malformed? {
        return Refused(InvalidGrant);
      }
      RoomForCode(Stored(), q, now);
      ghost var before := book;
      var grant, origin := RedeemCode(now, q);
      if grant.Refused? {
        return Refused(InvalidGrant);
      }
      r := GrantForCode(now, q, grant.value, random, origin, before);
    }

    method IssueForRefresh(now: nat, q: TokenRequest, random: bool) returns (r: Answer<(Secret, Secret)>)
      requires Valid() && clock == now && q.RefreshTokenGrant? && q.resource == resource
      modifies this
      ensures Valid() && clock == now
      ensures r.Granted? <==> old(Redeemable(q, now)) && random && RoomFor(old(Stored()), q, now)
      ensures r.Refused? ==> r.fault == if old(Redeemable(q, now)) then Unavailable else InvalidGrant
      ensures r.Granted? ==> RefreshIssued(old(book), q, r.value, now)
      ensures r.Refused? ==> book.issues == old(book).issues
      ensures book.begun == old(book).begun && book.decided == old(book).decided && book.approvals == old(book).approvals
    {
      if q.token.Malformed? {
        return Refused(InvalidGrant);
      }
      var grant, origin := RedeemRefresh(now, q);
      if grant.Refused? {
        return Refused(InvalidGrant);
      }
      r := IssueGrantLocked(now, grant.value, random, origin);
    }

    // A token is accepted exactly when it is the access token of a pair issued less than an hour ago.
    method Principal(now: nat, token: Presented) returns (ok: bool)
      requires Valid() && clock <= now
      modifies this`tickets, this`codes, this`access, this`refresh, this`clock
      ensures Valid() && clock <= now
      ensures ok <==> token.Presented? && AccessAlive(book, now, token.secret)
    {
      if token.Malformed? {
        return false;
      }
      PruneLocked(now);
      KeptAt(Stored(), book, now, Config(), token.secret);
      if token.secret in book.issues {
        IssueOurs(Stored(), book, now, Config(), token.secret);
      }
      if token.secret !in access {
        return false;
      }
      var grant := access[token.secret];
      return grant.issuer == issuer && grant.resource == resource && grant.scope == Scope && grant.expires > now;
    }
  }

  // ----- runs

  datatype Request =
    | Begins(q: AuthorizationRequest, redirects: Option<seq<string>>)
    | Finishes(requestID: Presented, approve: bool)
    | Asks(token: TokenRequest)
    | Uses(access: Presented)

  // One request at a time later than all before.
  datatype Event = Event(wait: nat, request: Request, random: bool)

  // Any requests in any order: what is stored is what the history leaves alive (Broker.Valid), and
  // every token traces to an approval (TracesToApproval).
  method Serve(issuer: string, syntax: Syntax, s256: string -> string, events: seq<Event>) returns (o: Broker)
    ensures o.Valid()
    ensures |o.tickets| <= MaxPending && |o.codes| <= MaxPending && |o.access| <= MaxTokens && |o.refresh| <= MaxTokens
    ensures Sound(o.book, s256)
  {
    o := new Broker(issuer, syntax, s256);
    var now := 0;
    var k := 0;
    while k < |events|
      invariant 0 <= k <= |events| && o.Valid() && o.clock <= now && fresh(o) && o.s256 == s256
    {
      now := now + events[k].wait;
      match events[k].request {
        case Begins(q, redirects) =>
          var r := o.BeginAuthorization(now, q, redirects, events[k].random);
        case Finishes(requestID, approve) =>
          var r := o.FinishAuthorization(now, requestID, approve, events[k].random);
        case Asks(token) =>
          var r := o.IssueToken(now, token, events[k].random);
        case Uses(access) =>
          var ok := o.Principal(now, access);
      }
      k := k + 1;
    }
    KeptMeans(o.Stored(), o.book, o.clock, o.Config());
  }
}
