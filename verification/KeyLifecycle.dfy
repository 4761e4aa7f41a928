/**
 An API key's life as two services see it: the handshake that admits an agent
 and the sweep that re-checks connected agents. Hashing is a parameter: `fp`
 is the fingerprint taken of a stored secret hash.
 */
module KeyLifecycle {
  import opened Options

  /** A key row. An absent hash is the empty string; times are in milliseconds. */
  datatype Key = Key(status: string, accountStatus: string, expiresAt: Option<int>, secretHash: string,
                     previousSecretHash: Option<string>, rotationGraceEndsAt: Option<int>, scopes: set<string>)

  predicate Connectable(accountStatus: string) { accountStatus == "ACTIVE" || accountStatus == "PAST_DUE" }

  predicate Expired(k: Key, now: int) { k.expiresAt.Some? && k.expiresAt.value <= now }

  predicate GraceOpen(k: Key, now: int) { k.rotationGraceEndsAt.Some? && k.rotationGraceEndsAt.value > now }

  predicate IsCurrent(k: Key, hash: string) { k.secretHash != "" && k.secretHash == hash }

  predicate IsPrevious(k: Key, hash: string) {
    k.previousSecretHash.Some? && k.previousSecretHash.value != "" && k.previousSecretHash.value == hash
  }

  datatype Verdict = Admitted(fingerprint: string) | Refused(code: string)

  /** `authenticateAgent`; `hash` is the keyed hash of the secret the agent presents. */
  function Authenticate(key: Option<Key>, hash: string, fp: string -> string, now: int): Verdict {
    if key.None? then Refused("AUTH_FAILED")
    else
      var k := key.value;
      if k.status != "ACTIVE" then Refused("AUTH_FAILED")
      else if !Connectable(k.accountStatus) then Refused("AUTH_FAILED")
      else if Expired(k, now) then Refused("AUTH_FAILED")
      else if !IsCurrent(k, hash) && !(GraceOpen(k, now) && IsPrevious(k, hash)) then Refused("INVALID_SIGNATURE")
      else if "*" !in k.scopes && "tunnel:connect" !in k.scopes then Refused("SCOPE_MISSING")
      else Admitted(fp(hash))
  }

  /**
   Who is admitted: exactly an agent whose key exists, is active and not
   expired, belongs to an active or past-due account, has the scope, and whose
   secret is the current one, or the previous one while its grace lasts. What
   the others are told depends on the first of these that is missing.
   */
  lemma AdmittedIff(key: Option<Key>, hash: string, fp: string -> string, now: int)
    ensures Authenticate(key, hash, fp, now).Admitted? <==>
              && key.Some? && var k := key.value;
              && k.status == "ACTIVE" && k.accountStatus in {"ACTIVE", "PAST_DUE"}
              && (k.expiresAt.Some? ==> now < k.expiresAt.value)
              && k.scopes * {"*", "tunnel:connect"} != {}
              && hash != ""
              && (k.secretHash == hash
                  || (k.previousSecretHash == Some(hash)
                      && k.rotationGraceEndsAt.Some? && now < k.rotationGraceEndsAt.value))
    ensures Authenticate(key, hash, fp, now).Admitted? ==> Authenticate(key, hash, fp, now).fingerprint == fp(hash)
    ensures var good := key.Some? && key.value.status == "ACTIVE" && key.value.accountStatus in {"ACTIVE", "PAST_DUE"}
                        && (key.value.expiresAt.Some? ==> now < key.value.expiresAt.value);
      var v := Authenticate(key, hash, fp, now);
      && (v == Refused("AUTH_FAILED") <==> !good)
      && (v == Refused("SCOPE_MISSING") <==> v.Refused? && good && Authenticate(Some(key.value.(scopes := {"*"})), hash, fp, now).Admitted?)
      && (v == Refused("INVALID_SIGNATURE") <==> good && Authenticate(Some(key.value.(scopes := {"*"})), hash, fp, now).Refused?)
  {
    if key.Some? {
      var s := key.value.scopes;
      assert s * {"*", "tunnel:connect"} != {} <==> "*" in s || "tunnel:connect" in s by {
        if "*" in s { assert "*" in s * {"*", "tunnel:connect"}; }
        if "tunnel:connect" in s { assert "tunnel:connect" in s * {"*", "tunnel:connect"}; }
      }
    }
  }

  datatype Reason = KeyMissing | KeyRevoked | KeyExpired | KeyInactive(status: string) | SecretRotatedOut

  /** `keyRejection`: why the sweep drops a connection, if it does. An empty fingerprint is not checked. */
  function KeyRejection(key: Option<Key>, fingerprint: string, fp: string -> string, now: int): Option<Reason> {
    if key.None? then Some(KeyMissing)
    else
      var k := key.value;
      if k.status == "REVOKED" then Some(KeyRevoked)
      else if k.status == "EXPIRED" then Some(KeyExpired)
      else if k.status != "ACTIVE" then Some(KeyInactive(k.status))
      else if Expired(k, now) then Some(KeyExpired)
      else if fingerprint == "" || k.secretHash == "" then None
      else if fp(k.secretHash) == fingerprint then None
      else
        var previous := k.previousSecretHash.Some? && k.previousSecretHash.value != ""
                        && fp(k.previousSecretHash.value) == fingerprint;
        if previous && GraceOpen(k, now) then None
        else Some(SecretRotatedOut)
  }

  /**
   The last moment (exclusive) at which an admitted secret is still good;
   `None` if it never runs out. A row without a current secret has nothing to
   be rotated to, and the sweep then looks at its expiry alone.
   */
  function GoodUntil(k: Key, hash: string): Option<int> {
    if k.secretHash == "" || IsCurrent(k, hash) then k.expiresAt
    else match (k.expiresAt, k.rotationGraceEndsAt)
      case (Some(e), Some(g)) => Some(if e < g then e else g)
      case (None, g) => g
      case (e, None) => e
  }

  /**
   A secret admitted at `t` is kept by the sweep at every later time before
   the earlier of the key's expiry and, for the previous secret, the end of
   the grace window, and refused at every time from then on, with the reason
   that applies then.
   */
  lemma KeptExactlyUntil(k: Key, hash: string, fp: string -> string, t: int, later: int)
    requires Authenticate(Some(k), hash, fp, t).Admitted? && t <= later
    requires fp(hash) != ""
    requires !IsCurrent(k, hash) ==> fp(k.secretHash) != fp(hash)
    ensures KeyRejection(Some(k), Authenticate(Some(k), hash, fp, t).fingerprint, fp, later) == None <==>
              (GoodUntil(k, hash).Some? ==> later < GoodUntil(k, hash).value)
    ensures var r := KeyRejection(Some(k), Authenticate(Some(k), hash, fp, t).fingerprint, fp, later);
      r.Some? ==> r.value == if k.expiresAt.Some? && k.expiresAt.value <= later then KeyExpired else SecretRotatedOut
  {
  }

  /** What the sweep refuses, the handshake refuses: for the same key, time and secret. */
  lemma SweepRefusalsAreHandshakeRefusals(key: Option<Key>, hash: string, fp: string -> string, now: int)
    requires KeyRejection(key, fp(hash), fp, now).Some?
    ensures Authenticate(key, hash, fp, now).Refused?
  {
  }

  // ---- A key over its lifetime --------------------------------------------

  const ROTATION_GRACE_MS := 60 * 60 * 1000

  /** A key at a time, with every secret hash it has ever had. */
  datatype Life = Life(now: int, key: Key, issued: set<string>)

  datatype Event = Rotate(hash: string) | ClearGrace | Revoke | MarkExpired | Wait(until: int)

  /** A rotation draws a new secret and is refused for a revoked key. */
  predicate Enabled(l: Life, e: Event) {
    match e
    case Rotate(h) => l.key.status != "REVOKED" && h != "" && h !in l.issued
    case Wait(t) => l.now <= t
    case _ => true
  }

  function Next(l: Life, e: Event): Life
    requires Enabled(l, e)
  {
    match e
    case Rotate(h) =>
      l.(key := l.key.(previousSecretHash := Some(l.key.secretHash), secretHash := h,
                       rotationGraceEndsAt := Some(l.now + ROTATION_GRACE_MS)),
         issued := l.issued + {h})
    case ClearGrace => l.(key := l.key.(previousSecretHash := None, rotationGraceEndsAt := None))
    case Revoke => l.(key := l.key.(status := "REVOKED"))
    case MarkExpired => l.(key := l.key.(status := "EXPIRED"))
    case Wait(t) => l.(now := t)
  }

  predicate Legal(l: Life, es: seq<Event>)
    decreases |es|
  {
    es == [] || (Enabled(l, es[0]) && Legal(Next(l, es[0]), es[1..]))
  }

  function Exec(l: Life, es: seq<Event>): Life
    requires Legal(l, es)
    decreases |es|
  {
    if es == [] then l else Exec(Next(l, es[0]), es[1..])
  }

  ghost predicate CollisionFree(fp: string -> string) {
    (forall a, b :: fp(a) == fp(b) ==> a == b) && forall a :: fp(a) != ""
  }

  ghost predicate Refuses(l: Life, hash: string, fp: string -> string) {
    KeyRejection(Some(l.key), fp(hash), fp, l.now).Some?
  }

  lemma RefusedStays(l: Life, e: Event, hash: string, fp: string -> string)
    requires CollisionFree(fp) && Enabled(l, e) && hash in l.issued && l.key.secretHash != ""
    requires Refuses(l, hash, fp)
    ensures Refuses(Next(l, e), hash, fp)
  {
  }

  /**
   Refusal is final: once the sweep refuses a secret of a key, sweep and
   handshake refuse it in every later state, whatever rotations, grace
   clean-ups, revocations and expiries follow.
   */
  lemma {:induction false} RefusedForEver(l: Life, es: seq<Event>, hash: string, fp: string -> string)
    requires CollisionFree(fp) && Legal(l, es) && hash in l.issued && l.key.secretHash != ""
    requires Refuses(l, hash, fp)
    ensures Refuses(Exec(l, es), hash, fp)
    ensures Authenticate(Some(Exec(l, es).key), hash, fp, Exec(l, es).now).Refused?
    decreases |es|
  {
    if es == [] {
      SweepRefusalsAreHandshakeRefusals(Some(l.key), hash, fp, l.now);
    } else {
      RefusedStays(l, es[0], hash, fp);
      RefusedForEver(Next(l, es[0]), es[1..], hash, fp);
    }
  }

  /** A secret that is not current, and previous at most until `end`. */
  ghost predicate Retired(l: Life, hash: string, end: int) {
    && hash in l.issued && l.key.secretHash != "" && l.key.secretHash != hash
    && (l.key.previousSecretHash == Some(hash) ==>
          l.key.rotationGraceEndsAt.Some? && l.key.rotationGraceEndsAt.value <= end)
  }

  lemma {:induction false} RetiredStays(l: Life, es: seq<Event>, hash: string, end: int)
    requires Legal(l, es) && Retired(l, hash, end)
    ensures Retired(Exec(l, es), hash, end)
    decreases |es|
  {
    if es != [] { RetiredStays(Next(l, es[0]), es[1..], hash, end); }
  }

  /**
   A secret that was rotated out stops working: from one grace period after
   the rotation on, both services refuse it for good, even if further
   rotations move the key's grace window.
   */
  lemma RotatedSecretRunsOut(l: Life, hash: string, es: seq<Event>, fp: string -> string)
    requires CollisionFree(fp) && l.key.secretHash in l.issued && l.key.secretHash != ""
    requires Enabled(l, Rotate(hash)) && Legal(Next(l, Rotate(hash)), es)
    requires Exec(Next(l, Rotate(hash)), es).now >= l.now + ROTATION_GRACE_MS
    ensures var end := Exec(Next(l, Rotate(hash)), es);
      && Refuses(end, l.key.secretHash, fp)
      && Authenticate(Some(end.key), l.key.secretHash, fp, end.now).Refused?
  {
    var l1 := Next(l, Rotate(hash));
    RetiredStays(l1, es, l.key.secretHash, l.now + ROTATION_GRACE_MS);
    SweepRefusalsAreHandshakeRefusals(Some(Exec(l1, es).key), l.key.secretHash, fp, Exec(l1, es).now);
  }

  /** A key that was revoked or marked expired admits and keeps nobody, whatever happens to it later. */
  lemma {:induction false} EndedForEver(l: Life, es: seq<Event>, hash: string, fp: string -> string)
    requires Legal(l, es) && l.key.status in {"REVOKED", "EXPIRED"}
    ensures var end := Exec(l, es);
      && end.key.status in {"REVOKED", "EXPIRED"} && Refuses(end, hash, fp)
      && KeyRejection(Some(end.key), fp(hash), fp, end.now) == Some(if end.key.status == "REVOKED" then KeyRevoked else KeyExpired)
      && Authenticate(Some(end.key), hash, fp, end.now).Refused?
    decreases |es|
  {
    if es != [] { EndedForEver(Next(l, es[0]), es[1..], hash, fp); }
  }

  /** Revoking, expiring and cleaning up take effect at once; a clean-up spares the current secret. */
  lemma TakesEffect(l: Life, hash: string, fp: string -> string)
    requires CollisionFree(fp) && l.key.secretHash != ""
    ensures Next(l, Revoke).key.status == "REVOKED" && Next(l, MarkExpired).key.status == "EXPIRED"
    ensures Refuses(Next(l, Revoke), hash, fp) && Refuses(Next(l, MarkExpired), hash, fp)
    ensures var end := Next(l, ClearGrace);
      Authenticate(Some(end.key), hash, fp, end.now).Admitted? <==>
        Authenticate(Some(l.key), hash, fp, l.now).Admitted? && hash == l.key.secretHash
  {
    AdmittedIff(Some(l.key), hash, fp, l.now);
    AdmittedIff(Some(Next(l, ClearGrace).key), hash, fp, l.now);
  }

  ghost predicate Waits(es: seq<Event>) { forall i :: 0 <= i < |es| ==> es[i].Wait? }

  lemma {:induction false} WaitingKeepsKey(l: Life, es: seq<Event>)
    requires Legal(l, es) && Waits(es)
    ensures Exec(l, es).key == l.key && l.now <= Exec(l, es).now
    decreases |es|
  {
    if es != [] { WaitingKeepsKey(Next(l, es[0]), es[1..]); }
  }

  /**
   A rotation takes nothing away at once: as long as the key itself is good,
   the new secret is admitted, and the old one exactly for the hour of grace.
   */
  lemma RotationGrace(l: Life, hash: string, es: seq<Event>, fp: string -> string)
    requires l.key.secretHash in l.issued && Enabled(l, Rotate(hash)) && Legal(Next(l, Rotate(hash)), es) && Waits(es)
    requires Authenticate(Some(l.key), l.key.secretHash, fp, l.now).Admitted?
    requires var end := Exec(Next(l, Rotate(hash)), es);
      l.key.expiresAt.Some? ==> end.now < l.key.expiresAt.value
    ensures var end := Exec(Next(l, Rotate(hash)), es);
      && Authenticate(Some(end.key), hash, fp, end.now).Admitted?
      && (Authenticate(Some(end.key), l.key.secretHash, fp, end.now).Admitted? <==> end.now < l.now + 3_600_000)
  {
    WaitingKeepsKey(Next(l, Rotate(hash)), es);
  }

  /** The key entity: its methods are the events above. */
  class ApiKey {
    var now: int
    var key: Key
    ghost var issued: set<string>

    ghost function View(): Life reads this { Life(now, key, issued) }

    constructor (key: Key, now: int)
      ensures View() == Life(now, key, {key.secretHash})
    {
      this.key, this.now, issued := key, now, {key.secretHash};
    }

    method RotateSecret(hash: string) returns (ok: bool)
      requires hash != "" && hash !in issued
      modifies this
      ensures ok == Enabled(old(View()), Rotate(hash))
      ensures View() == if ok then Next(old(View()), Rotate(hash)) else old(View())
    {
      if key.status == "REVOKED" { return false; }
      key := key.(previousSecretHash := Some(key.secretHash));
      key := key.(secretHash := hash);
      key := key.(rotationGraceEndsAt := Some(now + ROTATION_GRACE_MS));
      issued := issued + {hash};
      return true;
    }

    method RevokeKey()
      modifies this`key
      ensures View() == Next(old(View()), Revoke)
    {
      if key.status == "REVOKED" { return; }
      key := key.(status := "REVOKED");
    }
  }
}
