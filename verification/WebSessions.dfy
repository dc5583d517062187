// Web login sessions and their access tokens (internal/daemon/web_sessions.go). Secrets are numbers
// drawn in sequence, standing for their hashes; time is in seconds and read once per request. The
// session file's contents and whether it can be written are inputs.

module WebSessions {
  import opened Outcomes
  import opened Sizes

  type Secret = nat

  const Lifetime := 2592000
  const MaxSessions := 64
  const MaxTokens := 512

  datatype Record = Record(rootHash: string, expires: nat)

  datatype Presented = Malformed | Presented(secret: Secret)

  // ----- the history

  datatype Token = Token(secret: Secret, session: Secret)

  // minted: every access token in order; ended: sessions logged out; until: for every session ever
  // valid for this root, the end of its lifetime.
  datatype History = History(minted: seq<Token>, ended: set<Secret>, until: map<Secret, nat>)

  predicate SessionAlive(h: History, session: Secret, now: nat) {
    session in h.until && session !in h.ended && h.until[session] > now
  }

  // One of the last 512 tokens minted, its session not logged out and not run out.
  ghost predicate TokenGood(h: History, secret: Secret, now: nat) {
    exists k {:trigger h.minted[k]} :: 0 <= k < |h.minted| && |h.minted| - MaxTokens <= k && h.minted[k].secret == secret
                                       && SessionAlive(h, h.minted[k].session, now)
  }

  datatype Store = Store(sessions: map<Secret, Record>, access: map<Secret, Secret>, accessOrder: seq<Secret>)

  // The order list is the last 512 tokens, including those whose session was logged out.
  ghost predicate OrderKept(s: Store, h: History) {
    && |s.accessOrder| == (if |h.minted| < MaxTokens then |h.minted| else MaxTokens)
    && forall i {:trigger s.accessOrder[i]} :: 0 <= i < |s.accessOrder| ==>
         s.accessOrder[i] == h.minted[|h.minted| - |s.accessOrder| + i].secret
  }

  ghost predicate MintedOnce(h: History) {
    forall i, j {:trigger h.minted[i], h.minted[j]} :: 0 <= i < j < |h.minted| ==> h.minted[i].secret != h.minted[j].secret
  }

  predicate Recent(h: History, k: int) {
    0 <= k < |h.minted| && |h.minted| - MaxTokens <= k
  }

  // The table holds the recent tokens of sessions not logged out.
  ghost predicate TokenKept(s: Store, h: History, k: nat)
    requires k < |h.minted|
  {
    var t := h.minted[k];
    (t.secret in s.access <==> Recent(h, k) && t.session !in h.ended) && (t.secret in s.access ==> s.access[t.secret] == t.session)
  }

  ghost predicate OnlyMinted(s: Store, h: History) {
    forall a :: a in s.access ==> a in s.accessOrder
  }

  ghost predicate TokensKept(s: Store, h: History) {
    && MintedOnce(h) && OrderKept(s, h) && OnlyMinted(s, h)
    && forall k {:trigger TokenKept(s, h, k)} :: 0 <= k < |h.minted| ==> TokenKept(s, h, k)
  }

  // Stored sessions for this root are those not logged out, at least while they last.
  ghost predicate SessionKept(s: Store, h: History, root: string, now: nat, k: Secret) {
    && (SessionAlive(h, k, now) ==> k in s.sessions)
    && (k in s.sessions && s.sessions[k].rootHash == root ==> k in h.until && k !in h.ended && s.sessions[k].expires == h.until[k])
    && (k in s.sessions && k in h.until ==> s.sessions[k].rootHash == root)
  }

  ghost predicate SessionsKept(s: Store, h: History, root: string, now: nat) {
    forall k {:trigger SessionKept(s, h, root, now, k)} :: SessionKept(s, h, root, now, k)
  }

  ghost predicate Known(h: History, s: Store, next: Secret) {
    && (forall i {:trigger h.minted[i]} :: 0 <= i < |h.minted| ==> h.minted[i].secret < next && h.minted[i].session < next)
    && (forall k :: k in h.until ==> k < next) && (forall k :: k in h.ended ==> k < next) && (forall k :: k in s.sessions ==> k < next)
  }

  // Everything the store keeps to.
  ghost predicate Keeps(s: Store, h: History, root: string, now: nat, next: Secret) {
    TokensKept(s, h) && SessionsKept(s, h, root, now) && Known(h, s, next) && |s.sessions| <= MaxSessions
  }

  // ----- what happens to the tokens

  function Mint(s: Store, digest: Secret, session: Secret): Store {
    if |s.accessOrder| >= MaxTokens
    then Store(s.sessions, (s.access - {s.accessOrder[0]})[digest := session], s.accessOrder[1..] + [digest])
    else Store(s.sessions, s.access[digest := session], s.accessOrder + [digest])
  }

  function Minted(h: History, digest: Secret, session: Secret): History {
    h.(minted := h.minted + [Token(digest, session)])
  }

  lemma MintedOrder(s: Store, h: History, next: Secret, session: Secret)
    requires OrderKept(s, h)
    ensures OrderKept(Mint(s, next, session), Minted(h, next, session))
  {
    var t, g := Mint(s, next, session), Minted(h, next, session);
    var shift := if |s.accessOrder| >= MaxTokens then 1 else 0;
    forall i | 0 <= i < |t.accessOrder|
      ensures t.accessOrder[i] == g.minted[|g.minted| - |t.accessOrder| + i].secret
    {
      if i < |t.accessOrder| - 1 {
        assert t.accessOrder[i] == s.accessOrder[i + shift];
      }
    }
  }

  lemma MintedToken(s: Store, h: History, next: Secret, session: Secret, k: nat)
    requires TokensKept(s, h) && Known(h, s, next) && session !in h.ended && k <= |h.minted|
    ensures TokenKept(Mint(s, next, session), Minted(h, next, session), k)
  {
    if k < |h.minted| {
      assert TokenKept(s, h, k);
      if |s.accessOrder| >= MaxTokens {
        var first := |h.minted| - MaxTokens;
        assert s.accessOrder[0] == h.minted[first].secret;
        assert k != first ==> h.minted[k].secret != h.minted[first].secret;
      }
    }
  }

  lemma MintKeeps(s: Store, h: History, next: Secret, session: Secret)
    requires TokensKept(s, h) && Known(h, s, next) && session !in h.ended
    ensures TokensKept(Mint(s, next, session), Minted(h, next, session))
  {
    var t, g := Mint(s, next, session), Minted(h, next, session);
    MintedOrder(s, h, next, session);
    forall k | 0 <= k < |g.minted| ensures TokenKept(t, g, k) {
      MintedToken(s, h, next, session, k);
    }
    forall a | a in t.access ensures a in t.accessOrder {
      if a == next {
        assert t.accessOrder[|t.accessOrder| - 1] == a;
      } else {
        assert a in s.accessOrder;
        var i :| 0 <= i < |s.accessOrder| && s.accessOrder[i] == a;
        assert |s.accessOrder| >= MaxTokens ==> i > 0;
        assert t.accessOrder[if |s.accessOrder| >= MaxTokens then i - 1 else i] == a;
      }
    }
  }

  // A token in the table is one of the recent ones.
  lemma StoredToken(s: Store, h: History, a: Secret) returns (k: nat)
    requires TokensKept(s, h) && a in s.access
    ensures Recent(h, k) && h.minted[k].secret == a && h.minted[k].session !in h.ended && s.access[a] == h.minted[k].session
  {
    var i :| 0 <= i < |s.accessOrder| && s.accessOrder[i] == a;
    k := |h.minted| - |s.accessOrder| + i;
    assert TokenKept(s, h, k);
  }

  // Logging out drops the session's tokens from the table and leaves their digests in the order list.
  function Drop(s: Store, sessions: map<Secret, Record>, session: Secret): Store {
    Store(sessions, map a | a in s.access && s.access[a] != session :: s.access[a], s.accessOrder)
  }

  function Ended(h: History, session: Secret): History {
    h.(ended := h.ended + {session})
  }

  // A secret that was never drawn names no session.
  function EndedIfDrawn(h: History, session: Secret, next: Secret): History {
    if session < next then Ended(h, session) else h
  }

  lemma DropKeeps(s: Store, h: History, sessions: map<Secret, Record>, session: Secret)
    requires TokensKept(s, h)
    ensures TokensKept(Drop(s, sessions, session), Ended(h, session))
  {
    var t, g := Drop(s, sessions, session), Ended(h, session);
    forall k | 0 <= k < |g.minted| ensures TokenKept(t, g, k) {
      assert TokenKept(s, h, k);
    }
  }

  // ----- what allows decides

  lemma AllowsExactly(s: Store, h: History, root: string, now: nat, a: Secret)
    requires TokensKept(s, h) && SessionsKept(s, h, root, now)
    ensures TokenGood(h, a, now) <==>
              a in s.access && s.access[a] in s.sessions && s.sessions[s.access[a]].rootHash == root && s.sessions[s.access[a]].expires > now
  {
    if a in s.access {
      var k := StoredToken(s, h, a);
      assert SessionKept(s, h, root, now, h.minted[k].session);
    }
    if k :| 0 <= k < |h.minted| && |h.minted| - MaxTokens <= k && h.minted[k].secret == a && SessionAlive(h, h.minted[k].session, now) {
      assert TokenKept(s, h, k);
      assert SessionKept(s, h, root, now, h.minted[k].session);
    }
  }

  // ----- the store

  // The access table is no larger than the order list.
  lemma TableWithin(s: Store, h: History)
    requires TokensKept(s, h)
    ensures |s.access| <= MaxTokens
  {
    var listed := set i | 0 <= i < |s.accessOrder| :: s.accessOrder[i];
    ListedAtMost(s.accessOrder);
    SmallerSet(s.access.Keys, listed);
    assert |s.access| == |s.access.Keys|;
  }

  lemma {:induction false} ListedAtMost(order: seq<Secret>)
    ensures |set i | 0 <= i < |order| :: order[i]| <= |order|
  {
    var listed := set i | 0 <= i < |order| :: order[i];
    if order != [] {
      var front := order[..|order| - 1];
      ListedAtMost(front);
      var before := set i | 0 <= i < |front| :: front[i];
      assert listed == before + {order[|order| - 1]};
    }
  }

  class WebSessionStore {
    const rootHash: string
    const disk: Option<map<Secret, Record>>
    var loaded: bool
    var sessions: map<Secret, Record>
    var access: map<Secret, Secret>
    var accessOrder: seq<Secret>
    var next: Secret
    ghost var history: History
    ghost var clock: nat

    ghost function Stored(): Store
      reads this
    {
      Store(sessions, access, accessOrder)
    }

    ghost predicate Valid()
      reads this
    {
      && (loaded ==> Keeps(Stored(), history, rootHash, clock, next))
      && (!loaded ==> history == History([], {}, map[]) && Stored() == Store(map[], map[], []))
      && (!loaded && disk.Some? ==> forall k :: k in disk.value ==> k < next)
    }

    // The session file can be used.
    predicate Loads()
      reads this
    {
      loaded || (disk.Some? && |disk.value| <= MaxSessions)
    }

    // The ends of all lifetimes once the file has been read: those it gives for this root, at first.
    ghost function LoadedUntil(): map<Secret, nat>
      reads this
    {
      if loaded || !Loads() then history.until
      else map k | k in disk.value && disk.value[k].rootHash == rootHash :: disk.value[k].expires
    }

    // The sessions a write keeps.
    function LoadedSessions(now: nat): map<Secret, Record>
      reads this
    {
      var all := if loaded || !Loads() then sessions else disk.value;
      map k | k in all && all[k].expires > now && all[k].rootHash == rootHash :: all[k]
    }

    // disk is what the session file holds: None where it cannot be read or has no valid format.
    constructor (rootHash: string, disk: Option<map<Secret, Record>>, next: Secret)
      requires disk.Some? ==> forall k :: k in disk.value ==> k < next
      ensures Valid() && history == History([], {}, map[]) && clock == 0
    {
      this.rootHash, this.disk, this.next := rootHash, disk, next;
      loaded, sessions, access, accessOrder := false, map[], map[], [];
      history, clock := History([], {}, map[]), 0;
    }

    method LoadLocked() returns (ok: bool)
      requires Valid()
      modifies this`loaded, this`sessions, this`history
      ensures Valid() && ok == loaded == old(Loads())
      ensures history == old(history).(until := old(LoadedUntil()))
      ensures forall now {:trigger Cleaned(now)} :: ok ==> Cleaned(now) == old(LoadedSessions(now))
    {
      if loaded {
        return true;
      }
      if disk.None? || |disk.value| > MaxSessions {
        return false;
      }
      sessions := disk.value;
      history := history.(until := map k | k in disk.value && disk.value[k].rootHash == rootHash :: disk.value[k].expires);
      loaded := true;
      return true;
    }

    // What is kept of the sessions at the next write.
    function Cleaned(now: nat): map<Secret, Record>
      reads this
    {
      map k | k in sessions && sessions[k].expires > now && sessions[k].rootHash == rootHash :: sessions[k]
    }

    method CleanedLocked(now: nat) returns (result: map<Secret, Record>)
      ensures result == Cleaned(now)
    {
      result := map[];
      var todo := sessions.Keys;
      while todo != {}
        invariant todo <= sessions.Keys
        invariant result == map k | k in sessions && k !in todo && sessions[k].expires > now && sessions[k].rootHash == rootHash :: sessions[k]
        decreases |todo|
      {
        var k :| k in todo;
        todo := todo - {k};
        if sessions[k].expires > now && sessions[k].rootHash == rootHash {
          result := result[k := sessions[k]];
        }
      }
    }

    method AccessTokenLocked(session: Secret, random: bool) returns (r: Option<Secret>)
      requires Valid() && loaded && session !in history.ended && session < next
      modifies this`access, this`accessOrder, this`next, this`history
      ensures Valid() && sessions == old(sessions) && loaded
      ensures !random ==> r.None? && history == old(history)
      ensures random ==> r == Some(old(next)) && history == Minted(old(history), old(next), session)
    {
      if !random {
        return None;
      }
      MintKeepsAll(Stored(), history, rootHash, clock, next, session);
      var digest := next;
      if |accessOrder| >= MaxTokens {
        access := access - {accessOrder[0]};
        accessOrder := accessOrder[1..];
      }
      access := access[digest := session];
      accessOrder := accessOrder + [digest];
      history, next := Minted(history, digest, session), next + 1;
      return Some(digest);
    }

    // Returns the cookie's session and its first access token. A session whose token could not be drawn stays
    // open, its cookie unknown.
    method Login(now: nat, randomCookie: bool, saved: bool, randomToken: bool) returns (r: Option<(Secret, Secret)>)
      requires Valid() && clock <= now
      modifies this
      ensures Valid() && clock <= now && loaded == old(Loads())
      ensures r.Some? <==> old(Loads()) && |old(LoadedSessions(now))| < MaxSessions && randomCookie && saved && randomToken
      ensures r.Some? ==> r.value.0 == old(next) && r.value.0 !in old(LoadedUntil()) && SessionAlive(history, r.value.0, now)
      ensures history.minted == if r.Some? then old(history).minted + [Token(r.value.1, r.value.0)] else old(history).minted
      ensures history.until ==
              if old(Loads()) && |old(LoadedSessions(now))| < MaxSessions && randomCookie && saved
              then old(LoadedUntil())[old(next) := now + Lifetime] else old(LoadedUntil())
      ensures history.ended == old(history).ended
    {
      var ok := LoadLocked();
      if !ok {
        return None;
      }
      var cleaned := CleanedLocked(now);
      if |cleaned| >= MaxSessions {
        return None;
      }
      if !randomCookie || !saved {
        return None;
      }
      var session := OpenSession(now);
      var token := AccessTokenLocked(session, randomToken);
      if token.None? {
        return None;
      }
      return Some((session, token.value));
    }

    // A further session, with the others a write keeps.
    method OpenSession(now: nat) returns (session: Secret)
      requires Valid() && loaded && clock <= now && |Cleaned(now)| < MaxSessions
      modifies this`sessions, this`history, this`clock, this`next
      ensures Valid() && clock == now && session == old(next) && next == old(next) + 1
      ensures session !in old(history).until && session !in history.ended
      ensures history == old(history).(until := old(history).until[session := now + Lifetime])
    {
      var cleaned := CleanedLocked(now);
      session := next;
      OpenKeeps(Stored(), history, rootHash, clock, now, next, cleaned, now + Lifetime);
      sessions := cleaned[session := Record(rootHash, now + Lifetime)];
      history, clock, next := history.(until := history.until[session := now + Lifetime]), now, next + 1;
    }

    // The cookie names a live session, once the file has been read.
    ghost predicate Restorable(cookie: Presented, now: nat)
      reads this
    {
      Loads() && cookie.Presented? && SessionAlive(history.(until := LoadedUntil()), cookie.secret, now)
    }

    // A cookie that is still good renews its session and gives a further token.
    method Restore(now: nat, cookie: Presented, saved: bool, randomToken: bool) returns (r: Option<Secret>)
      requires Valid() && clock <= now
      modifies this
      ensures Valid() && clock <= now && loaded == old(Loads())
      ensures r.Some? <==> old(Restorable(cookie, now)) && saved && randomToken
      ensures history.minted == if r.Some? then old(history).minted + [Token(r.value, cookie.secret)] else old(history).minted
      ensures history.until ==
              if old(Restorable(cookie, now)) && saved then old(LoadedUntil())[cookie.secret := now + Lifetime] else old(LoadedUntil())
      ensures history.ended == old(history).ended
    {
      var ok := LoadLocked();
      if !ok {
        return None;
      }
      if cookie.Malformed? {
        return None;
      }
      var session := cookie.secret;
      assert SessionKept(Stored(), history, rootHash, clock, session);
      if session !in sessions || sessions[session].expires <= now || sessions[session].rootHash != rootHash {
        return None;
      }
      if !saved {
        return None;
      }
      Renew(now, session);
      r := AccessTokenLocked(session, randomToken);
    }

    method Renew(now: nat, session: Secret)
      requires Valid() && loaded && clock <= now && session !in history.ended
      requires session in sessions && sessions[session].expires > now && sessions[session].rootHash == rootHash
      modifies this`sessions, this`history, this`clock
      ensures Valid() && clock == now && history == old(history).(until := old(history).until[session := now + Lifetime])
    {
      var cleaned := CleanedLocked(now);
      RenewKeeps(Stored(), history, rootHash, clock, now, next, cleaned, session, now + Lifetime);
      sessions := cleaned[session := Record(rootHash, now + Lifetime)];
      history, clock := history.(until := history.until[session := now + Lifetime]), now;
    }

    method Logout(now: nat, cookie: Presented, saved: bool) returns (ok: bool)
      requires Valid() && clock <= now
      modifies this
      ensures Valid() && clock <= now && loaded == old(Loads())
      ensures ok <==> old(Loads()) && saved
      ensures ok && cookie.Presented? ==> !SessionAlive(history, cookie.secret, now)
      ensures history == old(history).(until := old(LoadedUntil()),
                ended := old(history).ended + if ok && cookie.Presented? && cookie.secret < next then {cookie.secret} else {})
      ensures accessOrder == old(accessOrder)
    {
      var loading := LoadLocked();
      if !loading {
        return false;
      }
      if !saved {
        return false;
      }
      if cookie.Malformed? {
        Clean(now);
      } else {
        End(now, cookie.secret);
      }
      return true;
    }

    method Clean(now: nat)
      requires Valid() && loaded && clock <= now
      modifies this`sessions, this`clock
      ensures Valid() && clock == now && loaded
    {
      var cleaned := CleanedLocked(now);
      CleanKeeps(Stored(), history, rootHash, clock, now, next, cleaned);
      sessions, clock := cleaned, now;
    }

    method End(now: nat, session: Secret)
      requires Valid() && loaded && clock <= now
      modifies this`sessions, this`access, this`history, this`clock
      ensures Valid() && clock == now && history == EndedIfDrawn(old(history), session, next)
    {
      var cleaned := CleanedLocked(now);
      AnyEndKeeps(Stored(), history, rootHash, clock, now, next, cleaned, session);
      sessions := cleaned - {session};
      access := map a | a in access && access[a] != session :: access[a];
      history, clock := EndedIfDrawn(history, session, next), now;
    }

    // A token is good exactly when it is one of the last 512, its session has not been logged out and
    // was opened or restored less than 30 days ago.
    method Allows(now: nat, token: Presented) returns (ok: bool)
      requires Valid() && clock <= now
      modifies this`loaded, this`sessions, this`history
      ensures Valid()
      ensures ok <==> old(Loads()) && token.Presented? && TokenGood(history, token.secret, now)
      ensures loaded == if token.Presented? then old(Loads()) else old(loaded)
      ensures history == if token.Presented? then old(history).(until := old(LoadedUntil())) else old(history)
    {
      if token.Malformed? {
        return false;
      }
      var loading := LoadLocked();
      if !loading {
        return false;
      }
      LaterKept(Stored(), history, rootHash, clock, now);
      AllowsExactly(Stored(), history, rootHash, now, token.secret);
      if token.secret !in access {
        return false;
      }
      var session := access[token.secret];
      return session in sessions && sessions[session].rootHash == rootHash && sessions[session].expires > now;
    }
  }

  // ----- what happens to the sessions

  lemma LaterKept(s: Store, h: History, root: string, now: nat, later: nat)
    requires SessionsKept(s, h, root, now) && now <= later
    ensures SessionsKept(s, h, root, later)
  {
    forall k ensures SessionKept(s, h, root, later, k) {
      assert SessionKept(s, h, root, now, k);
    }
  }

  lemma MintedSessions(s: Store, h: History, root: string, now: nat, digest: Secret, session: Secret)
    requires SessionsKept(s, h, root, now)
    ensures SessionsKept(Mint(s, digest, session), Minted(h, digest, session), root, now)
  {
    forall k ensures SessionKept(Mint(s, digest, session), Minted(h, digest, session), root, now, k) {
      assert SessionKept(s, h, root, now, k);
    }
  }

  ghost predicate IsCleaned(cleaned: map<Secret, Record>, s: Store, root: string, now: nat) {
    && (forall k :: k in cleaned <==> k in s.sessions && s.sessions[k].expires > now && s.sessions[k].rootHash == root)
    && (forall k :: k in cleaned ==> cleaned[k] == s.sessions[k])
  }

  // A session opened or renewed.
  lemma AddKeeps(s: Store, h: History, root: string, earlier: nat, now: nat, next: Secret, cleaned: map<Secret, Record>, session: Secret, until: nat)
    requires TokensKept(s, h) && SessionsKept(s, h, root, earlier) && Known(h, s, next) && earlier <= now
    requires IsCleaned(cleaned, s, root, now) && session !in h.ended
    ensures var t, g := s.(sessions := cleaned[session := Record(root, until)]), h.(until := h.until[session := until]);
            TokensKept(t, g) && SessionsKept(t, g, root, now)
  {
    var t, g := s.(sessions := cleaned[session := Record(root, until)]), h.(until := h.until[session := until]);
    forall k ensures SessionKept(t, g, root, now, k) {
      assert SessionKept(s, h, root, earlier, k);
    }
    forall k | 0 <= k < |g.minted| ensures TokenKept(t, g, k) {
      assert TokenKept(s, h, k);
    }
  }

  lemma CleanKeeps(s: Store, h: History, root: string, earlier: nat, now: nat, next: Secret, cleaned: map<Secret, Record>)
    requires TokensKept(s, h) && SessionsKept(s, h, root, earlier) && Known(h, s, next) && earlier <= now
    requires IsCleaned(cleaned, s, root, now) && |s.sessions| <= MaxSessions
    ensures Keeps(s.(sessions := cleaned), h, root, now, next)
  {
    FewerKeys(s.sessions, cleaned);
    forall k ensures SessionKept(s.(sessions := cleaned), h, root, now, k) {
      assert SessionKept(s, h, root, earlier, k);
    }
    forall k | 0 <= k < |h.minted| ensures TokenKept(s.(sessions := cleaned), h, k) {
      assert TokenKept(s, h, k);
    }
  }

  lemma RemoveKeeps(s: Store, h: History, root: string, earlier: nat, now: nat, next: Secret, cleaned: map<Secret, Record>, session: Secret)
    requires TokensKept(s, h) && SessionsKept(s, h, root, earlier) && Known(h, s, next) && earlier <= now
    requires IsCleaned(cleaned, s, root, now)
    ensures SessionsKept(Drop(s, cleaned - {session}, session), Ended(h, session), root, now)
  {
    forall k ensures SessionKept(Drop(s, cleaned - {session}, session), Ended(h, session), root, now, k) {
      assert SessionKept(s, h, root, earlier, k);
    }
  }

  lemma OpenKeeps(s: Store, h: History, root: string, earlier: nat, now: nat, next: Secret, cleaned: map<Secret, Record>, until: nat)
    requires Keeps(s, h, root, earlier, next) && earlier <= now && IsCleaned(cleaned, s, root, now) && |cleaned| < MaxSessions
    ensures Keeps(s.(sessions := cleaned[next := Record(root, until)]), h.(until := h.until[next := until]), root, now, next + 1)
  {
    AddKeeps(s, h, root, earlier, now, next, cleaned, next, until);
    OneMoreKey(cleaned, next, Record(root, until));
  }

  lemma RenewKeeps(s: Store, h: History, root: string, earlier: nat, now: nat, next: Secret, cleaned: map<Secret, Record>, session: Secret, until: nat)
    requires Keeps(s, h, root, earlier, next) && earlier <= now && IsCleaned(cleaned, s, root, now) && session in cleaned && session !in h.ended
    ensures Keeps(s.(sessions := cleaned[session := Record(root, until)]), h.(until := h.until[session := until]), root, now, next)
  {
    AddKeeps(s, h, root, earlier, now, next, cleaned, session, until);
    FewerKeys(s.sessions, cleaned[session := Record(root, until)]);
  }

  lemma EndKeeps(s: Store, h: History, root: string, earlier: nat, now: nat, next: Secret, cleaned: map<Secret, Record>, session: Secret)
    requires Keeps(s, h, root, earlier, next) && earlier <= now && IsCleaned(cleaned, s, root, now) && session < next
    ensures Keeps(Drop(s, cleaned - {session}, session), Ended(h, session), root, now, next)
  {
    RemoveKeeps(s, h, root, earlier, now, next, cleaned, session);
    DropKeeps(s, h, cleaned - {session}, session);
    FewerKeys(s.sessions, cleaned - {session});
  }

  lemma EndUndrawnKeeps(s: Store, h: History, root: string, earlier: nat, now: nat, next: Secret, cleaned: map<Secret, Record>, session: Secret)
    requires Keeps(s, h, root, earlier, next) && earlier <= now && IsCleaned(cleaned, s, root, now) && next <= session
    ensures Keeps(Drop(s, cleaned - {session}, session), h, root, now, next)
  {
    var t := Drop(s, cleaned - {session}, session);
    CleanKeeps(s, h, root, earlier, now, next, cleaned);
    assert cleaned - {session} == cleaned;
    forall a | a in s.access ensures s.access[a] != session {
      var k := StoredToken(s, h, a);
    }
    assert t.access == s.access;
  }

  lemma AnyEndKeeps(s: Store, h: History, root: string, earlier: nat, now: nat, next: Secret, cleaned: map<Secret, Record>, session: Secret)
    requires Keeps(s, h, root, earlier, next) && earlier <= now && IsCleaned(cleaned, s, root, now)
    ensures Keeps(Drop(s, cleaned - {session}, session), EndedIfDrawn(h, session, next), root, now, next)
  {
    if session < next {
      EndKeeps(s, h, root, earlier, now, next, cleaned, session);
    } else {
      EndUndrawnKeeps(s, h, root, earlier, now, next, cleaned, session);
    }
  }

  lemma MintKeepsAll(s: Store, h: History, root: string, now: nat, next: Secret, session: Secret)
    requires Keeps(s, h, root, now, next) && session !in h.ended && session < next
    ensures Keeps(Mint(s, next, session), Minted(h, next, session), root, now, next + 1)
  {
    MintKeeps(s, h, next, session);
    MintedSessions(s, h, root, now, next, session);
    var g := Minted(h, next, session);
    forall i | 0 <= i < |g.minted| ensures g.minted[i].secret < next + 1 && g.minted[i].session < next + 1 {
      assert i < |h.minted| ==> g.minted[i] == h.minted[i];
    }
  }

  // ----- runs

  datatype Request =
    | LogsIn(randomCookie: bool, randomToken: bool)
    | Restores(cookie: Presented, randomToken: bool)
    | LogsOut(cookie: Presented)
    | Uses(token: Presented)

  datatype Event = Event(wait: nat, request: Request, saved: bool)

  // Any requests in any order stay within the limits and keep Allows exact.
  method Serve(rootHash: string, disk: Option<map<Secret, Record>>, first: Secret, events: seq<Event>) returns (s: WebSessionStore)
    requires disk.Some? ==> forall k :: k in disk.value ==> k < first
    ensures s.Valid() && |s.sessions| <= MaxSessions && |s.access| <= MaxTokens && |s.accessOrder| <= MaxTokens
  {
    s := new WebSessionStore(rootHash, disk, first);
    var now := 0;
    var k := 0;
    while k < |events|
      invariant 0 <= k <= |events| && s.Valid() && s.clock <= now && fresh(s)
    {
      now := now + events[k].wait;
      match events[k].request {
        case LogsIn(randomCookie, randomToken) =>
          var r := s.Login(now, randomCookie, events[k].saved, randomToken);
        case Restores(cookie, randomToken) =>
          var r := s.Restore(now, cookie, events[k].saved, randomToken);
        case LogsOut(cookie) =>
          var ok := s.Logout(now, cookie, events[k].saved);
        case Uses(token) =>
          var ok := s.Allows(now, token);
      }
      k := k + 1;
    }
    if s.loaded {
      TableWithin(s.Stored(), s.history);
    }
  }
}
