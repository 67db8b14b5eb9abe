/** Model of SessionsMongooseRepository in
    service/src/ingress/sessions.adapters.db.mongoose.ts: a collection of
    session documents keyed by bearer token, with upsert-by-(user, device)
    refresh, lookup, single delete and bulk deletes by user and by device.

    The collection is a sequence the repository's methods reassign. MongoDB's
    filters are the Query datatype; its natural order is unspecified, so an
    upsert whose filter matches several documents may refresh any of them.
    The random seed and SHA-256 are not modelled: the digest is an input,
    fresh with respect to the stored tokens. Time is integer milliseconds. */
module Sessions {
  import opened Wrappers
  import opened HexTokens

  /** The hex string of a MongoDB ObjectId (a user or device id). */
  type Id = string

  /** A stored session document. */
  datatype SessionDocument = SessionDocument(token: string, expirationDate: int, userId: Id, deviceId: Option<Id>)

  /** The session object readSessionByToken hands out. */
  datatype Session = Session(token: string, expirationDate: int, user: Id, device: Option<Id>)

  /** The mapping of a stored document to the Session handed out; it keeps
      every field, so the document can be rebuilt from the session. */
  function ToSession(d: SessionDocument): (s: Session)
    ensures SessionDocument(s.token, s.expirationDate, s.user, s.device) == d
  {
    Session(d.token, d.expirationDate, d.userId, d.deviceId)
  }

  /** A MongoDB filter over session documents: equality on the fields that
      are present, and `expirationDate <= expiredAt` when that is present. */
  datatype Query = Query(token: Option<string>, userId: Option<Id>, deviceId: Option<Id>, expiredAt: Option<int>)

  function Matches(d: SessionDocument, q: Query): (m: bool)
    // the empty filter matches every document
    ensures q == Query(None, None, None, None) ==> m
    // a device filter never matches a document without a device
    ensures q.deviceId.Some? && d.deviceId.None? ==> !m
    // a document matches a filter naming only its own token
    ensures q == TokenQuery(d.token) ==> m
  {
    && (q.token.Some? ==> d.token == q.token.value)
    && (q.userId.Some? ==> d.userId == q.userId.value)
    && (q.deviceId.Some? ==> d.deviceId == q.deviceId)
    && (q.expiredAt.Some? ==> d.expirationDate <= q.expiredAt.value)
  }

  function TokenQuery(token: string): Query {
    Query(Some(token), None, None, None)
  }

  function UserQuery(userId: Id): Query {
    Query(None, Some(userId), None, None)
  }

  function DeviceQuery(deviceId: Id): Query {
    Query(None, None, Some(deviceId), None)
  }

  /** The filter of createOrRefreshSession: always the user, and the device
      only when the device id is truthy (present and not empty). */
  function UpsertQuery(userId: Id, deviceId: Option<Id>): (q: Query)
    ensures q.token.None? && q.expiredAt.None? && q.userId == Some(userId)
    ensures q.deviceId.Some? <==> deviceId.Some? && deviceId.value != ""
    ensures q.deviceId.Some? ==> q.deviceId == deviceId
  {
    Query(None, Some(userId), if deviceId.Some? && deviceId.value != "" then deviceId else None, None)
  }

  /** What the time-to-live index on `expirationDate` removes at `now`. */
  function ExpiredQuery(now: int): Query {
    Query(None, None, None, Some(now))
  }

  /** The (user, device) pair a session belongs to. */
  function Key(d: SessionDocument): (Id, Option<Id>) {
    (d.userId, d.deviceId)
  }

  /** The invariant the repository keeps: every token is a 64-digit
      lower-case hex digest, no two documents share a token, and no two
      documents share a (user, device) pair. */
  predicate WellFormed(docs: seq<SessionDocument>) {
    && (forall i :: 0 <= i < |docs| ==> |docs[i].token| == TokenLength && IsLowerHex(docs[i].token))
    && (forall i, j :: 0 <= i < j < |docs| ==> docs[i].token != docs[j].token && Key(docs[i]) != Key(docs[j]))
  }

  predicate NoneMatch(docs: seq<SessionDocument>, q: Query) {
    forall i :: 0 <= i < |docs| ==> !Matches(docs[i], q)
  }

  /** The position of the first document matching `q`. */
  function FindFirst(docs: seq<SessionDocument>, q: Query): (i: Option<nat>)
    ensures i.None? <==> NoneMatch(docs, q)
    ensures i.Some? ==> i.value < |docs| && Matches(docs[i.value], q)
    ensures i.Some? ==> forall k :: 0 <= k < i.value ==> !Matches(docs[k], q)
  {
    if docs == [] then None
    else if Matches(docs[0], q) then Some(0)
    else
      var k := FindFirst(docs[1..], q);
      if k.None? then None else Some(k.value + 1)
  }

  /** `findOne({ token })` mapped to a Session; no expiry check. */
  function Lookup(docs: seq<SessionDocument>, token: string): (r: Option<Session>)
    ensures r.None? <==> forall i :: 0 <= i < |docs| ==> docs[i].token != token
    ensures r.Some? ==> exists i :: 0 <= i < |docs| && docs[i].token == token && r.value == ToSession(docs[i])
  {
    var i := FindFirst(docs, TokenQuery(token));
    if i.None? then None else Some(ToSession(docs[i.value]))
  }

  /** `deleteOne(q)`: the first matching document is removed. */
  function DeleteOne(docs: seq<SessionDocument>, q: Query): (r: seq<SessionDocument>)
    ensures NoneMatch(docs, q) ==> r == docs
    ensures !NoneMatch(docs, q) ==> exists i :: 0 <= i < |docs| && Matches(docs[i], q) && r == docs[..i] + docs[i + 1..]
  {
    var i := FindFirst(docs, q);
    if i.None? then docs else docs[..i.value] + docs[i.value + 1..]
  }

  /** How many documents match `q`. */
  function CountMatching(docs: seq<SessionDocument>, q: Query): (n: nat)
    ensures n <= |docs|
    ensures n == 0 <==> NoneMatch(docs, q)
  {
    if docs == [] then 0
    else (if Matches(docs[0], q) then 1 else 0) + CountMatching(docs[1..], q)
  }

  /** `deleteMany(q)`: every matching document is removed, every other one
      is kept with its multiplicity, and the removed ones are counted. */
  function DeleteMany(docs: seq<SessionDocument>, q: Query): (kept: seq<SessionDocument>)
    ensures forall d :: d in kept ==> !Matches(d, q)
    ensures forall d :: !Matches(d, q) ==> multiset(kept)[d] == multiset(docs)[d]
    ensures |kept| + CountMatching(docs, q) == |docs|
  {
    if docs == [] then []
    else
      var rest := DeleteMany(docs[1..], q);
      assert docs == [docs[0]] + docs[1..];
      if Matches(docs[0], q) then rest else [docs[0]] + rest
  }

  /** The document createOrRefreshSession leaves behind, and the collection
      after it: a matching document (any one) gets the new token and expiry
      and keeps its user and device; with no match a document made of the
      filter's user and device, the token and the expiry is inserted. */
  ghost function UpsertOutcome(before: seq<SessionDocument>, q: Query, token: string, expirationDate: int,
                               after: seq<SessionDocument>, doc: SessionDocument): (ok: bool)
    requires q.userId.Some?
    // the returned document is stored, carries the new token and expiry,
    // belongs to the filter's user and satisfies the filter
    ensures ok ==> doc in after && doc.token == token && doc.expirationDate == expirationDate
                   && doc.userId == q.userId.value && (q.token.None? && q.expiredAt.None? ==> Matches(doc, q))
    // an update keeps the size, an insert adds one document
    ensures ok ==> |after| == |before| + (if NoneMatch(before, q) then 1 else 0)
  {
    if NoneMatch(before, q) then
      && doc == SessionDocument(token, expirationDate, q.userId.value, q.deviceId)
      && after == before + [doc]
    else
      exists i :: 0 <= i < |before| && Matches(before[i], q)
        && doc == before[i].(token := token, expirationDate := expirationDate)
        && after == before[i := doc] && after[i] == doc
  }

  /** The repository over one collection. */
  class SessionsRepository {
    var sessions: seq<SessionDocument>
    const sessionTimeoutSeconds: int

    /** A repository bound to a collection that already holds `existing`. */
    constructor (sessionTimeoutSeconds: int, existing: seq<SessionDocument>)
      requires WellFormed(existing)
      ensures this.sessionTimeoutSeconds == sessionTimeoutSeconds && sessions == existing
      ensures Valid()
    {
      this.sessionTimeoutSeconds := sessionTimeoutSeconds;
      sessions := existing;
    }

    ghost predicate Valid()
      reads this
    {
      WellFormed(sessions)
    }

    /** The session holding `token`, or None. The document is returned
        whatever its expiration date: expired documents are removed only by
        the time-to-live index (PurgeExpired). */
    method ReadSessionByToken(token: string) returns (r: Option<Session>)
      ensures r == Lookup(sessions, token)
      ensures r.None? <==> forall i :: 0 <= i < |sessions| ==> sessions[i].token != token
      ensures r.Some? ==> r.value.token == token
    {
      var i := FindFirst(sessions, TokenQuery(token));
      if i.None? {
        return None;
      }
      var doc := sessions[i.value];
      r := Some(Session(doc.token, doc.expirationDate, doc.userId, doc.deviceId));
    }

    /** Issues a session for the user (and device) at time `now`, with the
        token written from `digest`, the SHA-256 digest of a fresh seed. */
    method CreateOrRefreshSession(userId: Id, deviceId: Option<Id>, digest: seq<byte>, now: int)
      returns (doc: SessionDocument)
      requires Valid()
      requires |digest| == DigestLength
      requires forall i :: 0 <= i < |sessions| ==> sessions[i].token != TokenOf(digest)
      modifies this
      ensures Valid()
      ensures doc.token == TokenOf(digest)
      ensures doc.expirationDate == now + sessionTimeoutSeconds * 1000
      ensures doc.userId == userId
      ensures UpsertOutcome(old(sessions), UpsertQuery(userId, deviceId), TokenOf(digest), now + sessionTimeoutSeconds * 1000, sessions, doc)
    {
      var token := TokenOf(digest);
      var query := UpsertQuery(userId, deviceId);
      var expirationDate := now + sessionTimeoutSeconds * 1000;
      if exists i :: 0 <= i < |sessions| && Matches(sessions[i], query) {
        var i :| 0 <= i < |sessions| && Matches(sessions[i], query);
        doc := sessions[i].(token := token, expirationDate := expirationDate);
        sessions := sessions[i := doc];
      } else {
        doc := SessionDocument(token, expirationDate, userId, query.deviceId);
        sessions := sessions + [doc];
      }
      UpsertKeepsWellFormed(old(sessions), query, token, expirationDate, sessions, doc);
    }

    /** Removes the session holding `token` and returns it; None when there
        is none. */
    method DeleteSession(token: string) returns (r: Option<Session>)
      requires Valid()
      modifies this
      ensures Valid()
      ensures r == Lookup(old(sessions), token)
      ensures sessions == DeleteOne(old(sessions), TokenQuery(token))
    {
      var session := ReadSessionByToken(token);
      if session.None? {
        return None;
      }
      var before := |sessions|;
      sessions := DeleteOne(sessions, TokenQuery(token));
      DeleteOneKeepsWellFormed(old(sessions), TokenQuery(token));
      var deletedCount := before - |sessions|;
      r := if deletedCount == 1 then session else None;
    }

    /** Removes every session of the user; returns how many there were. */
    method DeleteSessionsForUser(userId: Id) returns (deletedCount: nat)
      requires Valid()
      modifies this
      ensures Valid()
      ensures sessions == DeleteMany(old(sessions), UserQuery(userId))
      ensures deletedCount == CountMatching(old(sessions), UserQuery(userId))
    {
      deletedCount := CountMatching(sessions, UserQuery(userId));
      DeleteManyKeepsWellFormed(sessions, UserQuery(userId));
      sessions := DeleteMany(sessions, UserQuery(userId));
    }

    /** Removes every session of the device; returns how many there were. */
    method DeleteSessionsForDevice(deviceId: Id) returns (deletedCount: nat)
      requires Valid()
      modifies this
      ensures Valid()
      ensures sessions == DeleteMany(old(sessions), DeviceQuery(deviceId))
      ensures deletedCount == CountMatching(old(sessions), DeviceQuery(deviceId))
    {
      deletedCount := CountMatching(sessions, DeviceQuery(deviceId));
      DeleteManyKeepsWellFormed(sessions, DeviceQuery(deviceId));
      sessions := DeleteMany(sessions, DeviceQuery(deviceId));
    }

    /** The database's time-to-live monitor, run at `now`: documents whose
        expiration date has passed are removed. */
    method PurgeExpired(now: int)
      requires Valid()
      modifies this
      ensures Valid()
      ensures sessions == DeleteMany(old(sessions), ExpiredQuery(now))
    {
      DeleteManyKeepsWellFormed(sessions, ExpiredQuery(now));
      sessions := DeleteMany(sessions, ExpiredQuery(now));
    }
  }

  // ---------------------------------------------------------------------------
  // Properties of the operations
  // ---------------------------------------------------------------------------

  /** The upsert keeps tokens and (user, device) pairs unique, given a fresh
      well-formed token. */
  lemma UpsertKeepsWellFormed(before: seq<SessionDocument>, q: Query, token: string, expirationDate: int,
                              after: seq<SessionDocument>, doc: SessionDocument)
    requires WellFormed(before)
    requires q.userId.Some? && q.token.None? && q.expiredAt.None?
    requires |token| == TokenLength && IsLowerHex(token)
    requires forall i :: 0 <= i < |before| ==> before[i].token != token
    requires UpsertOutcome(before, q, token, expirationDate, after, doc)
    ensures WellFormed(after)
  {
    if NoneMatch(before, q) {
      forall i | 0 <= i < |before| ensures Key(before[i]) != Key(doc) {
        assert !Matches(before[i], q);
      }
    }
  }

  /** Refreshing rotates the token: the new token finds the refreshed or
      inserted document, and when an existing document was refreshed its
      previous token finds nothing any more, the collection keeps its size
      and every other document is unchanged. With no match, one document is
      appended and every earlier token still finds what it found. */
  lemma {:induction false} UpsertRotatesToken(before: seq<SessionDocument>, q: Query, token: string, expirationDate: int,
                                              after: seq<SessionDocument>, doc: SessionDocument)
    requires WellFormed(before)
    requires q.userId.Some?
    requires forall i :: 0 <= i < |before| ==> before[i].token != token
    requires UpsertOutcome(before, q, token, expirationDate, after, doc)
    ensures Lookup(after, token) == Some(ToSession(doc))
    ensures !NoneMatch(before, q) ==>
      exists i :: 0 <= i < |before| && Matches(before[i], q)
        && Key(doc) == Key(before[i])
        && Lookup(after, before[i].token).None?
        && |after| == |before|
        && forall k :: 0 <= k < |before| && k != i ==> after[k] == before[k]
    ensures NoneMatch(before, q) ==>
      |after| == |before| + 1 && forall t :: t != token ==> Lookup(after, t) == Lookup(before, t)
  {
    if NoneMatch(before, q) {
      InsertKeepsLookups(before, token, doc);
    } else {
      var i :| 0 <= i < |before| && Matches(before[i], q)
        && doc == before[i].(token := token, expirationDate := expirationDate)
        && after == before[i := doc];
      RefreshLookups(before, i, token, doc);
    }
  }

  /** Appending a document with a new token: it is found, and every other
      token finds what it found before. */
  lemma InsertKeepsLookups(before: seq<SessionDocument>, token: string, doc: SessionDocument)
    requires doc.token == token
    requires forall i :: 0 <= i < |before| ==> before[i].token != token
    ensures Lookup(before + [doc], token) == Some(ToSession(doc))
    ensures forall t :: t != token ==> Lookup(before + [doc], t) == Lookup(before, t)
  {
    forall t | t != token ensures Lookup(before + [doc], t) == Lookup(before, t) {
      FindFirstAppend(before, doc, TokenQuery(t));
    }
    var after := before + [doc];
    assert after[|before|] == doc;
  }

  /** Replacing document `i` by one with a new token: the new token finds it
      and the old token finds nothing. */
  lemma RefreshLookups(before: seq<SessionDocument>, i: nat, token: string, doc: SessionDocument)
    requires WellFormed(before)
    requires i < |before| && doc.token == token
    requires forall k :: 0 <= k < |before| ==> before[k].token != token
    ensures Lookup(before[i := doc], token) == Some(ToSession(doc))
    ensures Lookup(before[i := doc], before[i].token).None?
  {
    var after := before[i := doc];
    assert after[i] == doc;
    forall k | 0 <= k < |after| ensures after[k].token != before[i].token {
      if k != i {
        assert after[k] == before[k];
      }
    }
  }

  /** Appending a document that does not match leaves FindFirst unchanged. */
  lemma FindFirstAppend(docs: seq<SessionDocument>, d: SessionDocument, q: Query)
    requires !Matches(d, q)
    ensures FindFirst(docs + [d], q) == FindFirst(docs, q)
  {
    var r := FindFirst(docs + [d], q);
    if r.None? {
      assert NoneMatch(docs, q) by {
        forall k | 0 <= k < |docs| ensures !Matches(docs[k], q) {
          assert (docs + [d])[k] == docs[k];
        }
      }
    } else {
      forall k | 0 <= k <= r.value ensures (docs + [d])[k] == docs[k] {
      }
      FindFirstUnique(docs, q, r.value);
    }
  }

  /** The first match is determined by the positions that match. */
  lemma FindFirstUnique(docs: seq<SessionDocument>, q: Query, i: nat)
    requires i < |docs| && Matches(docs[i], q)
    requires forall k :: 0 <= k < i ==> !Matches(docs[k], q)
    ensures FindFirst(docs, q) == Some(i)
  {
  }

  /** Calling createOrRefreshSession twice for the same user and device: the
      first token is no longer found, the second is, and it belongs to that
      user and device. */
  lemma {:induction false} SecondRefreshRevokesFirst(
    d0: seq<SessionDocument>, userId: Id, deviceId: Id,
    token1: string, exp1: int, d1: seq<SessionDocument>, doc1: SessionDocument,
    token2: string, exp2: int, d2: seq<SessionDocument>, doc2: SessionDocument)
    requires deviceId != ""
    requires WellFormed(d0)
    requires |token1| == TokenLength && IsLowerHex(token1)
    requires forall i :: 0 <= i < |d0| ==> d0[i].token != token1
    requires UpsertOutcome(d0, UpsertQuery(userId, Some(deviceId)), token1, exp1, d1, doc1)
    requires forall i :: 0 <= i < |d1| ==> d1[i].token != token2
    requires UpsertOutcome(d1, UpsertQuery(userId, Some(deviceId)), token2, exp2, d2, doc2)
    ensures token1 != token2
    ensures Lookup(d2, token1).None?
    ensures Lookup(d2, token2) == Some(Session(token2, exp2, userId, Some(deviceId)))
  {
    var q := UpsertQuery(userId, Some(deviceId));
    UpsertKeepsWellFormed(d0, q, token1, exp1, d1, doc1);
    UpsertRotatesToken(d0, q, token1, exp1, d1, doc1);
    assert Matches(doc1, q);
    var j :| 0 <= j < |d1| && d1[j] == doc1;
    // doc1 is the only document of the pair, so the second call refreshes it
    forall k | 0 <= k < |d1| && Matches(d1[k], q) ensures k == j {
      assert Key(d1[k]) == Key(d1[j]);
    }
    assert !NoneMatch(d1, q);
    UpsertRotatesToken(d1, q, token2, exp2, d2, doc2);
    assert token1 == d1[j].token;
  }

  /** With no device id the filter is the user alone: the only session of a
      user that was opened from a device is the one a device-less login
      refreshes, so that device's token stops working. */
  lemma {:induction false} DevicelessRefreshTakesDeviceSession(
    userId: Id, deviceId: Id, oldToken: string, oldExp: int,
    token: string, exp: int, after: seq<SessionDocument>, doc: SessionDocument)
    requires oldToken != token
    requires UpsertOutcome([SessionDocument(oldToken, oldExp, userId, Some(deviceId))],
                           UpsertQuery(userId, None), token, exp, after, doc)
    ensures doc == SessionDocument(token, exp, userId, Some(deviceId))
    ensures after == [doc]
    ensures Lookup(after, oldToken).None?
  {
    var before := [SessionDocument(oldToken, oldExp, userId, Some(deviceId))];
    assert Matches(before[0], UpsertQuery(userId, None));
  }

  /** Two device-less refreshes need not revoke each other. A user holding a
      session from a device and one without a device matches the
      device-less filter twice; the upsert may update the device session
      first and the other one second, after which the first new token
      still finds its session. */
  lemma DevicelessRefreshesNeedNotRevoke(
    userId: Id, deviceId: Id, t0: string, t1: string, token1: string, token2: string,
    e0: int, exp1: int, exp2: int)
    requires WellFormed([SessionDocument(t0, e0, userId, Some(deviceId)), SessionDocument(t1, e0, userId, None)])
    requires token1 != token2 && token1 !in {t0, t1}
    ensures var before := [SessionDocument(t0, e0, userId, Some(deviceId)), SessionDocument(t1, e0, userId, None)];
            var q := UpsertQuery(userId, None);
            var doc1 := SessionDocument(token1, exp1, userId, Some(deviceId));
            var mid := before[0 := doc1];
            var doc2 := SessionDocument(token2, exp2, userId, None);
            var after := mid[1 := doc2];
      && UpsertOutcome(before, q, token1, exp1, mid, doc1)
      && UpsertOutcome(mid, q, token2, exp2, after, doc2)
      && Lookup(after, token1) == Some(ToSession(doc1))
  {
    var before := [SessionDocument(t0, e0, userId, Some(deviceId)), SessionDocument(t1, e0, userId, None)];
    var q := UpsertQuery(userId, None);
    var doc1 := SessionDocument(token1, exp1, userId, Some(deviceId));
    var mid := before[0 := doc1];
    var doc2 := SessionDocument(token2, exp2, userId, None);
    var after := mid[1 := doc2];
    assert Matches(before[0], q) && Matches(mid[1], q);
    assert after[0] == doc1;
    FindFirstUnique(after, TokenQuery(token1), 0);
  }

  /** Removing the first match of a filter keeps the collection well formed. */
  lemma DeleteOneKeepsWellFormed(docs: seq<SessionDocument>, q: Query)
    requires WellFormed(docs)
    ensures WellFormed(DeleteOne(docs, q))
  {
    var f := FindFirst(docs, q);
    if f.Some? {
      var i := f.value;
      var r := docs[..i] + docs[i + 1..];
      assert DeleteOne(docs, q) == r;
      SkipOneIndex(docs, i, r);
      forall a | 0 <= a < |r| ensures |r[a].token| == TokenLength && IsLowerHex(r[a].token) {
        assert r[a] == docs[if a < i then a else a + 1];
      }
      forall a, b | 0 <= a < b < |r| ensures r[a].token != r[b].token && Key(r[a]) != Key(r[b]) {
        assert r[a] == docs[if a < i then a else a + 1];
        assert r[b] == docs[if b < i then b else b + 1];
      }
    }
  }

  /** Positions in `docs` with the i-th one cut out. */
  lemma SkipOneIndex(docs: seq<SessionDocument>, i: nat, r: seq<SessionDocument>)
    requires i < |docs| && r == docs[..i] + docs[i + 1..]
    ensures |r| == |docs| - 1
    ensures forall a :: 0 <= a < |r| ==> r[a] == docs[if a < i then a else a + 1]
  {
  }

  /** deleteSession is idempotent: after the first call the token finds
      nothing and a second call changes nothing; the first call removes
      exactly one document when the token was stored. */
  lemma {:induction false} DeleteSessionIdempotent(docs: seq<SessionDocument>, token: string)
    requires WellFormed(docs)
    ensures var once := DeleteOne(docs, TokenQuery(token));
      && Lookup(once, token).None?
      && DeleteOne(once, TokenQuery(token)) == once
      && (Lookup(docs, token).Some? ==> |once| == |docs| - 1)
      && (Lookup(docs, token).None? ==> once == docs)
  {
    var q := TokenQuery(token);
    var once := DeleteOne(docs, q);
    if !NoneMatch(docs, q) {
      var i :| 0 <= i < |docs| && Matches(docs[i], q) && once == docs[..i] + docs[i + 1..];
      forall k | 0 <= k < |once| ensures once[k].token != token {
        if k < i {
          assert once[k] == docs[k];
        } else {
          assert once[k] == docs[k + 1];
        }
      }
    }
    assert NoneMatch(once, q);
  }

  /** Bulk deletion keeps the collection well formed. */
  lemma {:induction false} DeleteManyKeepsWellFormed(docs: seq<SessionDocument>, q: Query)
    requires WellFormed(docs)
    ensures WellFormed(DeleteMany(docs, q))
  {
    if docs != [] {
      var tail := docs[1..];
      assert docs == [docs[0]] + tail;
      TailWellFormed(docs[0], tail);
      var rest := DeleteMany(tail, q);
      DeleteManyKeepsWellFormed(tail, q);
      if !Matches(docs[0], q) {
        KeptComeFromDocs(tail, q);
        ConsWellFormed(docs[0], tail, rest);
      }
    }
  }

  /** The tail of a well-formed list is well formed. */
  lemma TailWellFormed(d: SessionDocument, tail: seq<SessionDocument>)
    requires WellFormed([d] + tail)
    ensures WellFormed(tail)
  {
    var full := [d] + tail;
    assert forall k :: 0 <= k < |tail| ==> tail[k] == full[k + 1];
  }

  /** Every kept document was in the collection. */
  lemma KeptComeFromDocs(docs: seq<SessionDocument>, q: Query)
    ensures forall d :: d in DeleteMany(docs, q) ==> d in docs
  {
    var kept := DeleteMany(docs, q);
    forall d | d in kept ensures d in docs {
      assert multiset(kept)[d] == multiset(docs)[d];
    }
  }

  /** Putting back in front a document whose token and pair differ from
      every later one keeps a well-formed list well formed. */
  lemma ConsWellFormed(d: SessionDocument, tail: seq<SessionDocument>, rest: seq<SessionDocument>)
    requires WellFormed([d] + tail) && WellFormed(rest)
    requires forall x :: x in rest ==> x in tail
    ensures WellFormed([d] + rest)
  {
    var full := [d] + tail;
    forall k | 0 <= k < |rest| ensures rest[k].token != d.token && Key(rest[k]) != Key(d) {
      assert rest[k] in tail;
      var m :| 0 <= m < |tail| && tail[m] == rest[k];
      assert full[0] == d && full[m + 1] == rest[k];
    }
    var r := [d] + rest;
    forall a | 0 <= a < |r| ensures |r[a].token| == TokenLength && IsLowerHex(r[a].token) {
      if a > 0 {
        assert r[a] == rest[a - 1];
      } else {
        assert r[0] == full[0];
      }
    }
    forall a, b | 0 <= a < b < |r| ensures r[a].token != r[b].token && Key(r[a]) != Key(r[b]) {
      assert r[b] == rest[b - 1];
      if a > 0 {
        assert r[a] == rest[a - 1];
      }
    }
  }

  /** After deleteSessionsForUser (or ForDevice) no session of that user (or
      device) is found by its token, and every other session is found as
      before. */
  lemma {:induction false} BulkDeleteLookups(docs: seq<SessionDocument>, q: Query, token: string)
    requires WellFormed(docs)
    ensures var kept := DeleteMany(docs, q);
      && (Lookup(docs, token).Some? && MatchesSession(Lookup(docs, token).value, q) ==> Lookup(kept, token).None?)
      && (Lookup(docs, token).Some? && !MatchesSession(Lookup(docs, token).value, q) ==> Lookup(kept, token) == Lookup(docs, token))
      && (Lookup(docs, token).None? ==> Lookup(kept, token).None?)
  {
    if docs != [] {
      var d, tail := docs[0], docs[1..];
      assert docs == [d] + tail;
      TailWellFormed(d, tail);
      BulkDeleteLookups(tail, q, token);
      LookupCons(d, tail, token);
      var rest := DeleteMany(tail, q);
      assert DeleteMany(docs, q) == if Matches(d, q) then rest else [d] + rest;
      LookupCons(d, rest, token);
      assert MatchesSession(ToSession(d), q) == Matches(d, q);
      if d.token == token {
        forall k | 0 <= k < |tail| ensures tail[k].token != token {
          assert tail[k] == docs[k + 1];
        }
      }
    }
  }

  /** Looking a token up in a list with a given first document. */
  lemma LookupCons(d: SessionDocument, tail: seq<SessionDocument>, token: string)
    ensures Lookup([d] + tail, token) == if d.token == token then Some(ToSession(d)) else Lookup(tail, token)
  {
    assert ([d] + tail)[1..] == tail;
  }

  /** `Matches` read on the fields a Session keeps. */
  predicate MatchesSession(s: Session, q: Query) {
    Matches(SessionDocument(s.token, s.expirationDate, s.user, s.device), q)
  }
}
