/**
 The data model of the wallet service: NIP-47 constants and error codes, the
 database rows (users, apps, app permissions, stored Nostr events, payments,
 the identity key), the store holding them with its uniqueness and
 foreign-key invariants, the cascading deletes declared on the rows, the Nostr
 event as it travels on the wire, the NIP-47 request/response bodies and the
 service configuration.
 */
module Models {
  import opened Wrappers

  // ---------------------------------------------------------------------------
  // NIP-47 constants
  // ---------------------------------------------------------------------------

  const InfoEventKind: int := 13194
  const RequestKind: int := 23194
  const ResponseKind: int := 23195
  const PayInvoiceMethod: string := "pay_invoice"
  const Capabilities: string := "pay_invoice"

  /** The three event kinds the service publishes or listens to are pairwise distinct. */
  lemma EventKindsDistinct()
    ensures InfoEventKind != RequestKind && RequestKind != ResponseKind && InfoEventKind != ResponseKind
  {
  }

  /** The error codes of NIP-47. */
  datatype ErrorCode =
    | Internal
    | NotImplemented
    | QuotaExceeded
    | InsufficientBalance
    | Unauthorized
    | Expired
    | Restricted

  /** The code as it appears in the `code` field of a response. */
  function CodeString(c: ErrorCode): string {
    match c
    case Internal => "INTERNAL"
    case NotImplemented => "NOT_IMPLEMENTED"
    case QuotaExceeded => "QUOTA_EXCEEDED"
    case InsufficientBalance => "INSUFFICIENT_BALANCE"
    case Unauthorized => "UNAUTHORIZED"
    case Expired => "EXPIRED"
    case Restricted => "RESTRICTED"
  }

  const AllErrorCodes: seq<ErrorCode> :=
    [Internal, NotImplemented, QuotaExceeded, InsufficientBalance, Unauthorized, Expired, Restricted]

  /** Reading a `code` field back: the only code with that spelling, if any. */
  function ParseErrorCode(s: string): (r: Option<ErrorCode>)
    ensures r.Some? ==> CodeString(r.value) == s
    ensures r.None? ==> forall c: ErrorCode :: CodeString(c) != s
  {
    if s == "INTERNAL" then Some(Internal)
    else if s == "NOT_IMPLEMENTED" then Some(NotImplemented)
    else if s == "QUOTA_EXCEEDED" then Some(QuotaExceeded)
    else if s == "INSUFFICIENT_BALANCE" then Some(InsufficientBalance)
    else if s == "UNAUTHORIZED" then Some(Unauthorized)
    else if s == "EXPIRED" then Some(Expired)
    else if s == "RESTRICTED" then Some(Restricted)
    else None
  }

  /** Every code is listed once and the seven spellings are pairwise distinct. */
  lemma ErrorCodesDistinct()
    ensures |AllErrorCodes| == 7
    ensures forall c: ErrorCode :: c in AllErrorCodes
    ensures forall i, j :: 0 <= i < j < |AllErrorCodes| ==> CodeString(AllErrorCodes[i]) != CodeString(AllErrorCodes[j])
  {
    forall c: ErrorCode
      ensures c in AllErrorCodes
    {
      match c
      case Internal => assert AllErrorCodes[0] == c;
      case NotImplemented => assert AllErrorCodes[1] == c;
      case QuotaExceeded => assert AllErrorCodes[2] == c;
      case InsufficientBalance => assert AllErrorCodes[3] == c;
      case Unauthorized => assert AllErrorCodes[4] == c;
      case Expired => assert AllErrorCodes[5] == c;
      case Restricted => assert AllErrorCodes[6] == c;
    }
  }

  /** A code survives being written into a response and read back. */
  lemma ErrorCodeRoundTrip(c: ErrorCode)
    ensures ParseErrorCode(CodeString(c)) == Some(c)
  {
  }

  // ---------------------------------------------------------------------------
  // Time values
  // ---------------------------------------------------------------------------

  /** Wall-clock fields of a time in some location. */
  datatype CivilTime = CivilTime(year: int, month: int, day: int, hour: int, minute: int, second: int, nanosecond: int)

  predicate ValidCivil(c: CivilTime) {
    && 1 <= c.month <= 12 && 1 <= c.day <= 31
    && 0 <= c.hour < 24 && 0 <= c.minute < 60 && 0 <= c.second < 60
    && 0 <= c.nanosecond < 1_000_000_000
  }

  /**
   A Go `time.Time`: the zero value (what a failed `time.Parse` yields and what
   `IsZero` reports) or a civil time in a named location.
   */
  datatype Time = ZeroTime | At(civil: CivilTime, location: string) {
    predicate IsZero() { ZeroTime? }
  }

  // ---------------------------------------------------------------------------
  // Database rows
  // ---------------------------------------------------------------------------

  datatype User = User(
    id: nat,
    albyIdentifier: string,
    accessToken: string,
    refreshToken: string,
    email: string,
    lightningAddress: string)

  datatype App = App(id: nat, userId: nat, name: string, description: string, nostrPubkey: string)

  datatype AppPermission = AppPermission(
    id: nat,
    appId: nat,
    requestMethod: string,
    maxAmount: int,
    maxAmountPerTransaction: int,
    budgetRenewal: string,
    expiresAt: Time)

  /** The life cycle of a stored request: received, then executed or error, then replied. */
  datatype EventState = Received | Executed | Error | Replied {
    /** The spelling kept in the `state` column. */
    function Name(): string {
      match this
      case Received => "received"
      case Executed => "executed"
      case Error => "error"
      case Replied => "replied"
    }

    /** Position in the life cycle. */
    function Rank(): nat {
      match this
      case Received => 0
      case Executed => 1
      case Error => 1
      case Replied => 2
    }
  }

  datatype NostrEvent = NostrEvent(
    id: nat,
    appId: nat,
    nostrId: string,
    replyId: string,
    content: string,
    state: EventState)

  datatype Payment = Payment(
    id: nat,
    appId: nat,
    nostrEventId: nat,
    amount: nat,
    paymentRequest: string,
    preimage: string)

  datatype Identity = Identity(id: nat, privkey: string)

  /** Every table as a sequence of rows in primary-key order. */
  datatype Store = Store(
    users: seq<User>,
    apps: seq<App>,
    permissions: seq<AppPermission>,
    events: seq<NostrEvent>,
    payments: seq<Payment>,
    identities: seq<Identity>)

  const EmptyStore := Store([], [], [], [], [], [])

  // ---------------------------------------------------------------------------
  // Generic sequence helpers
  // ---------------------------------------------------------------------------

  predicate NoDup<T(==)>(xs: seq<T>) {
    forall i, j :: 0 <= i < j < |xs| ==> xs[i] != xs[j]
  }

  /** The elements of `xs` that `keep` accepts, in their original order. */
  function Filter<T(!new)>(xs: seq<T>, keep: T -> bool): (r: seq<T>)
    ensures |r| <= |xs|
    ensures forall x :: x in r <==> x in xs && keep(x)
  {
    if |xs| == 0 then []
    else if keep(xs[0]) then [xs[0]] + Filter(xs[1..], keep)
    else Filter(xs[1..], keep)
  }

  /** Filtering with a predicate that accepts everything changes nothing. */
  lemma {:induction false} FilterAll<T(!new)>(xs: seq<T>, keep: T -> bool)
    requires forall x :: x in xs ==> keep(x)
    ensures Filter(xs, keep) == xs
  {
    if |xs| > 0 {
      assert forall x :: x in xs[1..] ==> x in xs;
      FilterAll(xs[1..], keep);
      assert [xs[0]] + xs[1..] == xs;
    }
  }

  /** The largest key of `rows` under `key`, or 0 when there are none. */
  function MaxKey<T(!new)>(rows: seq<T>, key: T -> nat): (m: nat)
    ensures forall x :: x in rows ==> key(x) <= m
    ensures |rows| == 0 ==> m == 0
    ensures |rows| > 0 ==> exists x :: x in rows && key(x) == m
  {
    if |rows| == 0 then 0
    else
      var rest := MaxKey(rows[1..], key);
      assert forall x :: x in rows ==> x == rows[0] || x in rows[1..];
      if key(rows[0]) >= rest then key(rows[0]) else rest
  }

  /** The primary key an insert receives: one past the largest in the table. */
  function NextKey<T(!new)>(rows: seq<T>, key: T -> nat): (k: nat)
    ensures k >= 1
    ensures forall x :: x in rows ==> key(x) < k
  {
    MaxKey(rows, key) + 1
  }

  /**
   Saving one loaded row: the row whose primary key is `id` becomes `f` of
   itself, and every other row, and the order, stay as they are.
   */
  function UpdateRow<T>(rows: seq<T>, key: T -> nat, id: nat, f: T -> T): (r: seq<T>)
    ensures |r| == |rows|
    ensures forall i :: 0 <= i < |rows| ==> r[i] == (if key(rows[i]) == id then f(rows[i]) else rows[i])
  {
    if |rows| == 0 then []
    else [if key(rows[0]) == id then f(rows[0]) else rows[0]] + UpdateRow(rows[1..], key, id, f)
  }

  // ---------------------------------------------------------------------------
  // Key projections
  // ---------------------------------------------------------------------------

  function UserKey(u: User): nat { u.id }
  function AppKey(a: App): nat { a.id }
  function PermissionKey(p: AppPermission): nat { p.id }
  function EventKey(e: NostrEvent): nat { e.id }
  function PaymentKey(p: Payment): nat { p.id }
  function IdentityKey(i: Identity): nat { i.id }

  function UserIds(s: Store): set<nat> { set u | u in s.users :: u.id }
  function AppIds(s: Store): set<nat> { set a | a in s.apps :: a.id }
  function EventIds(s: Store): set<nat> { set e | e in s.events :: e.id }
  function NostrIds(s: Store): set<string> { set e | e in s.events :: e.nostrId }

  // ---------------------------------------------------------------------------
  // Store invariants
  // ---------------------------------------------------------------------------

  /** No two rows of `rows` share a key: a primary key or a unique index. */
  predicate DistinctKeys<T, K(==)>(rows: seq<T>, key: T -> K) {
    forall i, j :: 0 <= i < j < |rows| ==> key(rows[i]) != key(rows[j])
  }

  /**
   Rows in strictly increasing primary-key order, as the auto-increment
   assigns them; gorm's `First` orders by primary key, so the first matching
   row of the sequence is the one it loads.
   */
  predicate Ascending<T>(rows: seq<T>, key: T -> nat) {
    forall i, j :: 0 <= i < j < |rows| ==> key(rows[i]) < key(rows[j])
  }

  lemma AscendingDistinct<T>(rows: seq<T>, key: T -> nat)
    requires Ascending(rows, key)
    ensures DistinctKeys(rows, key)
  {
    forall i, j | 0 <= i < j < |rows|
      ensures key(rows[i]) != key(rows[j])
    {
      assert key(rows[i]) < key(rows[j]);
    }
  }

  function NostrIdKey(e: NostrEvent): string { e.nostrId }
  function AlbyKey(u: User): string { u.albyIdentifier }

  /** Under distinct keys, a key identifies at most one row. */
  lemma DistinctKeysUnique<T, K>(rows: seq<T>, key: T -> K, x: T, y: T)
    requires DistinctKeys(rows, key)
    requires x in rows && y in rows && key(x) == key(y)
    ensures x == y
  {
    var i :| 0 <= i < |rows| && rows[i] == x;
    var j :| 0 <= j < |rows| && rows[j] == y;
    assert key(rows[i]) == key(rows[j]);
  }

  lemma {:induction false} FilterDistinctKeys<T(!new), K>(xs: seq<T>, keep: T -> bool, key: T -> K)
    requires DistinctKeys(xs, key)
    ensures DistinctKeys(Filter(xs, keep), key)
  {
    if |xs| > 0 {
      var rest := xs[1..];
      assert DistinctKeys(rest, key) by {
        forall i, j | 0 <= i < j < |rest|
          ensures key(rest[i]) != key(rest[j])
        {
          assert rest[i] == xs[i + 1] && rest[j] == xs[j + 1];
        }
      }
      FilterDistinctKeys(rest, keep, key);
      var fr := Filter(rest, keep);
      forall k | 0 <= k < |fr|
        ensures key(fr[k]) != key(xs[0])
      {
        assert fr[k] in rest;
        var m :| 0 <= m < |rest| && rest[m] == fr[k];
        assert rest[m] == xs[m + 1];
      }
    }
  }

  lemma {:induction false} FilterAscending<T(!new)>(xs: seq<T>, keep: T -> bool, key: T -> nat)
    requires Ascending(xs, key)
    ensures Ascending(Filter(xs, keep), key)
  {
    if |xs| > 0 {
      var rest := xs[1..];
      assert Ascending(rest, key) by {
        forall i, j | 0 <= i < j < |rest|
          ensures key(rest[i]) < key(rest[j])
        {
          assert rest[i] == xs[i + 1] && rest[j] == xs[j + 1];
        }
      }
      FilterAscending(rest, keep, key);
      var fr := Filter(rest, keep);
      forall k | 0 <= k < |fr|
        ensures key(xs[0]) < key(fr[k])
      {
        assert fr[k] in rest;
        var m :| 0 <= m < |rest| && rest[m] == fr[k];
        assert rest[m] == xs[m + 1];
      }
    }
  }

  /** Appending a row whose key exceeds every stored key keeps the order. */
  lemma AppendAscending<T>(xs: seq<T>, key: T -> nat, x: T)
    requires Ascending(xs, key)
    requires forall y :: y in xs ==> key(y) < key(x)
    ensures Ascending(xs + [x], key)
  {
    var r := xs + [x];
    forall i, j | 0 <= i < j < |r|
      ensures key(r[i]) < key(r[j])
    {
      if j == |xs| {
        assert r[i] in xs;
      } else {
        assert r[i] == xs[i] && r[j] == xs[j];
      }
    }
  }

  lemma AppendDistinctKeys<T, K>(xs: seq<T>, key: T -> K, x: T)
    requires DistinctKeys(xs, key)
    requires forall y :: y in xs ==> key(y) != key(x)
    ensures DistinctKeys(xs + [x], key)
  {
    var r := xs + [x];
    forall i, j | 0 <= i < j < |r|
      ensures key(r[i]) != key(r[j])
    {
      if j == |xs| {
        assert r[i] in xs;
      } else {
        assert r[i] == xs[i] && r[j] == xs[j];
      }
    }
  }

  /** A payment belongs to an existing app and to an existing event of that same app. */
  predicate PaymentLinked(s: Store, p: Payment) {
    && p.appId in AppIds(s)
    && p.nostrEventId in EventIds(s)
    && forall e :: e in s.events && e.id == p.nostrEventId ==> e.appId == p.appId
  }

  /** Foreign keys: every row points at an existing parent. */
  predicate Linked(s: Store) {
    && (forall a :: a in s.apps ==> a.userId in UserIds(s))
    && (forall p :: p in s.permissions ==> p.appId in AppIds(s))
    && (forall e :: e in s.events ==> e.appId in AppIds(s))
    && (forall p :: p in s.payments ==> PaymentLinked(s, p))
  }

  /**
   Every table in strictly increasing primary-key order (so primary keys are
   unique), the two unique indexes, and the foreign keys.
   */
  predicate Valid(s: Store) {
    && Ascending(s.users, UserKey)
    && Ascending(s.apps, AppKey)
    && Ascending(s.permissions, PermissionKey)
    && Ascending(s.events, EventKey)
    && Ascending(s.payments, PaymentKey)
    && Ascending(s.identities, IdentityKey)
    && DistinctKeys(s.events, NostrIdKey)
    && DistinctKeys(s.users, AlbyKey)
    && Linked(s)
  }

  lemma EmptyStoreValid()
    ensures Valid(EmptyStore)
  {
  }

  /** The row stored for a Nostr event id, if any; unique by `NostrIdUnique`. */
  function FindEvent(rows: seq<NostrEvent>, nostrId: string): (r: Option<NostrEvent>)
    ensures r.Some? ==> r.value in rows && r.value.nostrId == nostrId
    ensures r.None? ==> forall e :: e in rows ==> e.nostrId != nostrId
  {
    if |rows| == 0 then None
    else if rows[0].nostrId == nostrId then Some(rows[0])
    else FindEvent(rows[1..], nostrId)
  }

  // ---------------------------------------------------------------------------
  // Cascading deletes
  // ---------------------------------------------------------------------------

  /**
   Deleting an app removes, through the `OnDelete:CASCADE` constraints on its
   children, its permissions, its stored events and its payments.
   */
  function DeleteApp(s: Store, appId: nat): (r: Store)
    ensures r.users == s.users && r.identities == s.identities
    ensures forall a :: a in r.apps <==> a in s.apps && a.id != appId
    ensures forall p :: p in r.permissions <==> p in s.permissions && p.appId != appId
    ensures forall e :: e in r.events <==> e in s.events && e.appId != appId
    ensures forall p :: p in r.payments <==> p in s.payments && p.appId != appId
  {
    Store(
      s.users,
      Filter(s.apps, (a: App) => a.id != appId),
      Filter(s.permissions, (p: AppPermission) => p.appId != appId),
      Filter(s.events, (e: NostrEvent) => e.appId != appId),
      Filter(s.payments, (p: Payment) => p.appId != appId),
      s.identities)
  }

  /** `appId` names one of the user's apps. */
  predicate OwnedApp(s: Store, appId: nat, userId: nat) {
    exists a :: a in s.apps && a.id == appId && a.userId == userId
  }

  /** Deleting a user removes the user and cascades to its apps and their children. */
  function DeleteUser(s: Store, userId: nat): (r: Store)
    ensures forall u :: u in r.users <==> u in s.users && u.id != userId
    ensures forall a :: a in r.apps <==> a in s.apps && a.userId != userId
    ensures forall p :: p in r.permissions <==> p in s.permissions && !OwnedApp(s, p.appId, userId)
    ensures forall e :: e in r.events <==> e in s.events && !OwnedApp(s, e.appId, userId)
    ensures forall p :: p in r.payments <==> p in s.payments && !OwnedApp(s, p.appId, userId)
    ensures r.identities == s.identities
  {
    var gone := set a | a in s.apps && a.userId == userId :: a.id;
    Store(
      Filter(s.users, (u: User) => u.id != userId),
      Filter(s.apps, (a: App) => a.userId != userId),
      Filter(s.permissions, (p: AppPermission) => p.appId !in gone),
      Filter(s.events, (e: NostrEvent) => e.appId !in gone),
      Filter(s.payments, (p: Payment) => p.appId !in gone),
      s.identities)
  }

  /** Deleting an app keeps the store valid and leaves no row pointing at it. */
  lemma DeleteAppValid(s: Store, appId: nat)
    requires Valid(s)
    ensures Valid(DeleteApp(s, appId))
    ensures appId !in AppIds(DeleteApp(s, appId))
    ensures forall e :: e in DeleteApp(s, appId).events ==> e.appId != appId
    ensures forall p :: p in DeleteApp(s, appId).payments ==> p.appId != appId
    ensures forall p :: p in DeleteApp(s, appId).permissions ==> p.appId != appId
  {
    var r := DeleteApp(s, appId);
    FilterAscending(s.apps, (a: App) => a.id != appId, AppKey);
    FilterAscending(s.permissions, (p: AppPermission) => p.appId != appId, PermissionKey);
    FilterAscending(s.events, (e: NostrEvent) => e.appId != appId, EventKey);
    FilterDistinctKeys(s.events, (e: NostrEvent) => e.appId != appId, NostrIdKey);
    FilterAscending(s.payments, (p: Payment) => p.appId != appId, PaymentKey);
    forall p | p in r.payments
      ensures PaymentLinked(r, p)
    {
      assert p.appId in AppIds(s);
      var a :| a in s.apps && a.id == p.appId;
      assert a in r.apps;
      var e :| e in s.events && e.id == p.nostrEventId;
      assert e.appId == p.appId;
      assert e in r.events;
    }
    forall x | x in r.permissions
      ensures x.appId in AppIds(r)
    {
      var a :| a in s.apps && a.id == x.appId;
      assert a in r.apps;
    }
    forall x | x in r.events
      ensures x.appId in AppIds(r)
    {
      var a :| a in s.apps && a.id == x.appId;
      assert a in r.apps;
    }
  }

  /** Deleting a user keeps the store valid and leaves none of its apps or their rows. */
  lemma DeleteUserValid(s: Store, userId: nat)
    requires Valid(s)
    ensures Valid(DeleteUser(s, userId))
    ensures userId !in UserIds(DeleteUser(s, userId))
    ensures forall a :: a in DeleteUser(s, userId).apps ==> a.userId != userId
  {
    var r := DeleteUser(s, userId);
    var gone := set a | a in s.apps && a.userId == userId :: a.id;
    assert r.permissions == Filter(s.permissions, (p: AppPermission) => p.appId !in gone);
    assert r.events == Filter(s.events, (e: NostrEvent) => e.appId !in gone);
    assert r.payments == Filter(s.payments, (p: Payment) => p.appId !in gone);
    FilterAscending(s.users, (u: User) => u.id != userId, UserKey);
    FilterDistinctKeys(s.users, (u: User) => u.id != userId, AlbyKey);
    FilterAscending(s.apps, (a: App) => a.userId != userId, AppKey);
    FilterAscending(s.permissions, (p: AppPermission) => p.appId !in gone, PermissionKey);
    FilterAscending(s.events, (e: NostrEvent) => e.appId !in gone, EventKey);
    FilterDistinctKeys(s.events, (e: NostrEvent) => e.appId !in gone, NostrIdKey);
    FilterAscending(s.payments, (p: Payment) => p.appId !in gone, PaymentKey);
    forall a | a in r.apps
      ensures a.userId in UserIds(r)
    {
      var u :| u in s.users && u.id == a.userId;
      assert u in r.users;
    }
    forall x | x in r.permissions
      ensures x.appId in AppIds(r)
    {
      var a :| a in s.apps && a.id == x.appId;
      assert a.id !in gone;
      assert a in r.apps;
    }
    forall x | x in r.events
      ensures x.appId in AppIds(r)
    {
      var a :| a in s.apps && a.id == x.appId;
      assert a.id !in gone;
      assert a in r.apps;
    }
    forall p | p in r.payments
      ensures PaymentLinked(r, p)
    {
      var a :| a in s.apps && a.id == p.appId;
      assert a.id !in gone;
      assert a in r.apps;
      var e :| e in s.events && e.id == p.nostrEventId;
      assert e.appId == p.appId;
      assert e in r.events;
    }
  }

  // ---------------------------------------------------------------------------
  // Wire formats
  // ---------------------------------------------------------------------------

  /** A Nostr event as exchanged with the relay. */
  datatype Event = Event(
    id: string,
    pubkey: string,
    createdAt: int,
    kind: int,
    tags: seq<seq<string>>,
    content: string,
    sig: string)

  /** The decoded NIP-47 request: its method and, for `pay_invoice`, the invoice parameter. */
  datatype Nip47Request = Nip47Request(requestMethod: string, invoice: string)

  datatype Nip47Error = Nip47Error(code: string, message: string)

  datatype Nip47Result = PayResult(preimage: string)

  datatype Nip47Response = Nip47Response(error: Option<Nip47Error>, result: Option<Nip47Result>, resultType: string)

  /** An error reply: only the `error` member is set. */
  function ErrorResponse(code: ErrorCode, message: string): Nip47Response {
    Nip47Response(Some(Nip47Error(CodeString(code), message)), None, "")
  }

  /**
   The members JSON encoding writes for a response: each of `error`, `result`
   and `result_type` is omitted when empty (`omitempty`).
   */
  function JsonKeys(r: Nip47Response): (keys: seq<string>)
    ensures "error" in keys <==> r.error.Some?
    ensures "result" in keys <==> r.result.Some?
    ensures "result_type" in keys <==> r.resultType != ""
    ensures NoDup(keys)
  {
    (if r.error.Some? then ["error"] else [])
    + (if r.result.Some? then ["result"] else [])
    + (if r.resultType != "" then ["result_type"] else [])
  }

  /** The members written for an error object; `code` and `message` are each omitted when empty. */
  function ErrorJsonKeys(e: Nip47Error): (keys: seq<string>)
    ensures "code" in keys <==> e.code != ""
    ensures "message" in keys <==> e.message != ""
  {
    (if e.code != "" then ["code"] else []) + (if e.message != "" then ["message"] else [])
  }

  // ---------------------------------------------------------------------------
  // Configuration
  // ---------------------------------------------------------------------------

  const AlbyBackendType: string := "ALBY"
  const LndBackendType: string := "LND"

  /** The service configuration (environment variables, plus the derived identity pubkey). */
  datatype Config = Config(
    nostrSecretKey: string,
    clientPubkey: string,
    relay: string,
    lnBackendType: string,
    databaseUri: string,
    databaseMaxConns: int,
    identityPubkey: string)
}
