/**
 NIP-47 request handling as a transition function over the store.

 `HandleEvent` takes the service state (configuration, store, whether the
 relay has signalled end of stored events), an incoming request event and the
 outcomes of the calls the handler makes into code outside the model: NIP-04
 shared-secret computation, decryption and encryption, JSON (un)marshalling,
 BOLT #11 decoding, event signing, the Lightning payment and the database
 writes that can fail. It returns the new store and what the caller receives:
 nothing, a signed reply, or an error.
 */
module Nip47Service {
  import opened Wrappers
  import opened Text
  import opened Models

  /** NIP-04 shared secret, treated as opaque bytes. */
  type Secret = seq<int>

  /** The Lightning backend's answer to `SendPaymentSync`. */
  datatype PayOutcome = Paid(preimage: string) | PayFailed(message: string)

  /**
   The calls `HandleEvent` makes into code outside the model, each as a total
   function from its arguments to its result (None for an error).
   */
  datatype Oracles = Oracles(
    sharedSecret: (string, string) -> Option<Secret>,   // (pubkey, secret key)
    decrypt: (string, Secret) -> Option<string>,
    encrypt: (string, Secret) -> Option<string>,
    marshal: Nip47Response -> Option<string>,
    unmarshal: string -> Option<Nip47Request>,
    decodeInvoice: string -> Option<nat>,               // amount in millisatoshi
    sign: (Event, string) -> Option<(string, string)>,  // (event id, signature)
    pay: (string, string) -> PayOutcome,                // (sender pubkey, bolt11)
    appLookupFails: bool,
    insertEventFails: bool,
    insertPaymentFails: bool)

  /** Why `createResponse` gave up. */
  datatype ResponseFailure = MarshalFailed | EncryptFailed | SignFailed

  /** The error `HandleEvent` returns. */
  datatype HandleError =
    | SharedSecretFailed
    | DecryptFailed
    | SaveEventFailed
    | RequestUnreadable
    | InvoiceUndecodable
    | SavePaymentFailed
    | ResponseFailed(failure: ResponseFailure)

  /** What `HandleEvent` hands back: `(nil, nil)`, `(resp, nil)` or `(nil, err)`. */
  datatype Reply =
    | NoReply
    | Respond(event: Event, body: Nip47Response)
    | Fail(error: HandleError)

  datatype ServiceState = ServiceState(cfg: Config, store: Store, receivedEOS: bool)

  datatype Step = Step(store: Store, reply: Reply)

  const UnauthorizedMessage: string := "The public key does not have a wallet connected."
  const UnknownMethodPrefix: string := "Unknown method: "
  const PaymentFailedPrefix: string := "Something went wrong while paying invoice: "

  // ---------------------------------------------------------------------------
  // createResponse
  // ---------------------------------------------------------------------------

  /** The `p` and `e` tags of a reply: the requester and the request. */
  function ReplyTags(request: Event): seq<seq<string>> {
    [["p", request.pubkey], ["e", request.id]]
  }

  /**
   A reply to `request` carrying `body`, encrypted with `ss`, authored by the
   service identity, created at `now` and signed with the service key.
   */
  function CreateResponse(cfg: Config, request: Event, body: Nip47Response, ss: Secret, o: Oracles, now: int): (r: Result<Event, ResponseFailure>)
    ensures r.Success? ==>
      && r.value.kind == ResponseKind
      && r.value.pubkey == cfg.identityPubkey
      && r.value.tags == ReplyTags(request)
      && r.value.createdAt == now
      && o.marshal(body).Some?
      && o.encrypt(o.marshal(body).value, ss) == Some(r.value.content)
    ensures r.Failure? <==>
      o.marshal(body).None?
      || o.encrypt(o.marshal(body).value, ss).None?
      || o.sign(Unsigned(cfg, request, o.encrypt(o.marshal(body).value, ss).value, now), cfg.nostrSecretKey).None?
  {
    match o.marshal(body)
    case None => Failure(MarshalFailed)
    case Some(json) =>
      match o.encrypt(json, ss)
      case None => Failure(EncryptFailed)
      case Some(msg) =>
        var unsigned := Unsigned(cfg, request, msg, now);
        match o.sign(unsigned, cfg.nostrSecretKey)
        case None => Failure(SignFailed)
        case Some(idSig) => Success(unsigned.(id := idSig.0, sig := idSig.1))
  }

  /** The reply before signing fills in its id and signature. */
  function Unsigned(cfg: Config, request: Event, content: string, now: int): Event {
    Event("", cfg.identityPubkey, now, ResponseKind, ReplyTags(request), content, "")
  }

  /** `return svc.createResponse(...)`: a reply, or the failure as the handler's error. */
  function Answer(cfg: Config, request: Event, body: Nip47Response, ss: Secret, o: Oracles, now: int): Reply {
    match CreateResponse(cfg, request, body, ss, o, now)
    case Success(ev) => Respond(ev, body)
    case Failure(f) => Fail(ResponseFailed(f))
  }

  // ---------------------------------------------------------------------------
  // HandleEvent
  // ---------------------------------------------------------------------------

  /**
   The app `First(&app, &App{NostrPubkey: pubkey})` loads. The struct
   condition drops zero-valued fields, so an empty pubkey imposes no condition
   and the first app (lowest id) is returned.
   */
  function FindApp(apps: seq<App>, pubkey: string): (r: Option<App>)
    ensures r.Some? ==> r.value in apps && (pubkey == "" || r.value.nostrPubkey == pubkey)
    ensures r.None? ==> forall a :: a in apps ==> pubkey != "" && a.nostrPubkey != pubkey
    ensures pubkey == "" && |apps| > 0 ==> r == Some(apps[0])
    ensures r.Some? ==> exists k :: 0 <= k < |apps| && apps[k] == r.value && NoMatchBefore(apps, pubkey, k)
  {
    if |apps| == 0 then None
    else if pubkey == "" || apps[0].nostrPubkey == pubkey then Some(apps[0])
    else
      var r := FindApp(apps[1..], pubkey);
      if r.None? then None
      else
        var k :| 0 <= k < |apps[1..]| && apps[1..][k] == r.value && NoMatchBefore(apps[1..], pubkey, k);
        assert apps[k + 1] == r.value && NoMatchBefore(apps, pubkey, k + 1);
        r
  }

  /** No app before position `k` has the key `pubkey`. */
  predicate NoMatchBefore(apps: seq<App>, pubkey: string, k: int)
    requires 0 <= k <= |apps|
  {
    forall i :: 0 <= i < k ==> pubkey != "" && apps[i].nostrPubkey != pubkey
  }

  /**
   Several apps may share a key, as the key is only an index; in a table kept
   in primary-key order the app found is the one with the lowest id.
   */
  lemma FindAppLowestId(apps: seq<App>, pubkey: string, i: int)
    requires Ascending(apps, AppKey) && 0 <= i < |apps|
    requires pubkey == "" || apps[i].nostrPubkey == pubkey
    ensures FindApp(apps, pubkey).Some? && FindApp(apps, pubkey).value.id <= apps[i].id
  {
    var r := FindApp(apps, pubkey);
    assert r.Some?;
    var k :| 0 <= k < |apps| && apps[k] == r.value && NoMatchBefore(apps, pubkey, k);
    assert k <= i;
    if k < i {
      assert AppKey(apps[k]) < AppKey(apps[i]);
    }
  }

  /** Payment amount in satoshi: the invoice's millisatoshi divided by 1000, truncated. */
  function SatoshiOf(msat: nat): (sat: nat)
    ensures sat * 1000 <= msat < (sat + 1) * 1000
  {
    msat / 1000
  }

  /** Sets the state of the row with id `id`; other rows stay as they are. */
  function UpdateEvent(rows: seq<NostrEvent>, id: nat, state: EventState): (r: seq<NostrEvent>)
    ensures |r| == |rows|
    ensures forall i :: 0 <= i < |rows| ==>
      r[i] == (if rows[i].id == id then rows[i].(state := state) else rows[i])
  {
    UpdateRow(rows, EventKey, id, (e: NostrEvent) => e.(state := state))
  }

  /** Records the preimage on the payment row with id `id`; other rows stay as they are. */
  function UpdatePreimage(rows: seq<Payment>, id: nat, preimage: string): (r: seq<Payment>)
    ensures |r| == |rows|
    ensures forall i :: 0 <= i < |rows| ==>
      r[i] == (if rows[i].id == id then rows[i].(preimage := preimage) else rows[i])
  {
    UpdateRow(rows, PaymentKey, id, (p: Payment) => p.(preimage := preimage))
  }

  /** The row stored for a newly accepted request. */
  function ReceivedRow(s: Store, app: App, request: Event): NostrEvent {
    NostrEvent(NextKey(s.events, EventKey), app.id, request.id, "", request.content, Received)
  }

  /** The payment row inserted before the Lightning call. */
  function PendingPayment(s: Store, app: App, row: NostrEvent, bolt11: string, msat: nat): Payment {
    Payment(NextKey(s.payments, PaymentKey), app.id, row.id, SatoshiOf(msat), bolt11, "")
  }

  /** Decoding the invoice, recording the payment, paying and recording the outcome. */
  function PayInvoice(svc: ServiceState, s: Store, app: App, row: NostrEvent, request: Event, bolt11: string, ss: Secret, o: Oracles, now: int): (r: Step)
    ensures r.store.users == s.users && r.store.apps == s.apps
    ensures r.store.permissions == s.permissions && r.store.identities == s.identities
    ensures |r.store.events| == |s.events| && |s.payments| <= |r.store.payments| <= |s.payments| + 1
    ensures r.reply.Respond? ==> (r.reply.body.error.None? <==> o.pay(request.pubkey, bolt11).Paid?)
  {
    match o.decodeInvoice(bolt11)
    case None => Step(s, Fail(InvoiceUndecodable))
    case Some(msat) =>
      if o.insertPaymentFails then Step(s, Fail(SavePaymentFailed))
      else
        var payment := PendingPayment(s, app, row, bolt11, msat);
        var s2 := s.(payments := s.payments + [payment]);
        match o.pay(request.pubkey, bolt11)
        case PayFailed(msg) =>
          var s3 := s2.(events := UpdateEvent(s2.events, row.id, Error));
          Step(s3, Answer(svc.cfg, request, ErrorResponse(Internal, PaymentFailedPrefix + msg), ss, o, now))
        case Paid(preimage) =>
          var s3 := s2.(events := UpdateEvent(s2.events, row.id, Executed),
                        payments := UpdatePreimage(s2.payments, payment.id, preimage));
          Step(s3, Answer(svc.cfg, request, Nip47Response(None, Some(PayResult(preimage)), PayInvoiceMethod), ss, o, now))
  }

  /**
   Dispatch on the decrypted payload of a stored request: a payload starting
   with `ln` is a bare invoice (the legacy format); anything else must be a
   JSON request whose method is `pay_invoice`.
   */
  function Dispatch(svc: ServiceState, s: Store, app: App, row: NostrEvent, request: Event, payload: string, ss: Secret, o: Oracles, now: int): (r: Step)
    ensures r.store.users == s.users && r.store.apps == s.apps
    ensures r.store.permissions == s.permissions && r.store.identities == s.identities
    ensures |r.store.events| == |s.events| && |s.payments| <= |r.store.payments| <= |s.payments| + 1
    ensures r.store.payments != s.payments ==> HasPrefix(payload, "ln") || o.unmarshal(payload).Some?
  {
    if HasPrefix(payload, "ln") then
      PayInvoice(svc, s, app, row, request, payload, ss, o, now)
    else
      match o.unmarshal(payload)
      case None => Step(s, Fail(RequestUnreadable))
      case Some(req) =>
        if req.requestMethod != PayInvoiceMethod then
          Step(s, Answer(svc.cfg, request, ErrorResponse(NotImplemented, UnknownMethodPrefix + req.requestMethod), ss, o, now))
        else
          PayInvoice(svc, s, app, row, request, req.invoice, ss, o, now)
  }

  /** `HandleEvent`: one incoming request, the store after it, and the reply. */
  function HandleEvent(svc: ServiceState, request: Event, o: Oracles, now: int): (r: Step)
    ensures r.store.users == svc.store.users && r.store.apps == svc.store.apps
    ensures r.store.permissions == svc.store.permissions && r.store.identities == svc.store.identities
    ensures |svc.store.events| <= |r.store.events| <= |svc.store.events| + 1
    ensures |svc.store.payments| <= |r.store.payments| <= |svc.store.payments| + 1
    ensures r.store != svc.store ==> svc.receivedEOS && FindEvent(svc.store.events, request.id).None?
  {
    var s := svc.store;
    if !svc.receivedEOS then Step(s, NoReply)
    else if FindEvent(s.events, request.id).Some? then Step(s, NoReply)
    else
      var app := if o.appLookupFails then None else FindApp(s.apps, request.pubkey);
      match app
      case None =>
        (match o.sharedSecret(request.pubkey, svc.cfg.nostrSecretKey)
        case None => Step(s, Fail(SharedSecretFailed))
        case Some(ss) =>
          (match CreateResponse(svc.cfg, request, ErrorResponse(Unauthorized, UnauthorizedMessage), ss, o, now)
           case Success(ev) => Step(s, Respond(ev, ErrorResponse(Unauthorized, UnauthorizedMessage)))
           case Failure(_) => Step(s, NoReply)))
      case Some(app) =>
        match o.sharedSecret(app.nostrPubkey, svc.cfg.nostrSecretKey)
        case None => Step(s, Fail(SharedSecretFailed))
        case Some(ss) =>
          match o.decrypt(request.content, ss)
          case None => Step(s, Fail(DecryptFailed))
          case Some(payload) =>
            if o.insertEventFails then Step(s, Fail(SaveEventFailed))
            else
              var row := ReceivedRow(s, app, request);
              Dispatch(svc, s.(events := s.events + [row]), app, row, request, payload, ss, o, now)
  }

  // ---------------------------------------------------------------------------
  // After publishing
  // ---------------------------------------------------------------------------

  /**
   After a reply is published the stored request is marked `replied` with the
   reply's id; when no row exists for the request (an unauthorised sender)
   the lookup fails and nothing changes.
   */
  function MarkReplied(s: Store, requestId: string, replyId: string): (r: Store)
    ensures FindEvent(s.events, requestId).None? ==> r == s
  {
    match FindEvent(s.events, requestId)
    case None => s
    case Some(e) =>
      s.(events := SetReplied(s.events, e.id, replyId))
  }

  /** Marks the row with id `id` replied with the reply's id; other rows stay as they are. */
  function SetReplied(rows: seq<NostrEvent>, id: nat, replyId: string): (r: seq<NostrEvent>)
    ensures |r| == |rows|
    ensures forall i :: 0 <= i < |rows| ==>
      r[i] == (if rows[i].id == id then rows[i].(state := Replied, replyId := replyId) else rows[i])
  {
    UpdateRow(rows, EventKey, id, (e: NostrEvent) => e.(state := Replied, replyId := replyId))
  }

  // ---------------------------------------------------------------------------
  // GetUser
  // ---------------------------------------------------------------------------

  datatype UserLookup =
    | UserFound(user: User, apps: seq<App>)
    | NoUser
    | LookupFailed

  /** The first row with primary key `id`. */
  function FindUser(users: seq<User>, id: nat): (r: Option<User>)
    ensures r.Some? ==> r.value in users && r.value.id == id
    ensures r.None? ==> forall u :: u in users ==> u.id != id
  {
    if |users| == 0 then None
    else if users[0].id == id then Some(users[0])
    else FindUser(users[1..], id)
  }

  /** The user id `GetUser` looks up: always 1 with the LND backend, else the session's. */
  function SessionUserId(cfg: Config, sessionUserId: Option<nat>): Option<nat> {
    if cfg.lnBackendType == LndBackendType then Some(1) else sessionUserId
  }

  /**
   `GetUser`: the session's user id (forced to 1 with the LND backend, where
   a single user owns the instance), loaded with its apps. A missing id or a
   missing row is "no user"; any other database error is an error.
   */
  function GetUser(cfg: Config, sessionUserId: Option<nat>, s: Store, dbFails: bool): (r: UserLookup)
    ensures cfg.lnBackendType == LndBackendType && r.UserFound? ==> r.user.id == 1
    ensures sessionUserId.None? && cfg.lnBackendType != LndBackendType ==> r == NoUser
    ensures r.UserFound? ==>
      && r.user in s.users
      && (cfg.lnBackendType == LndBackendType || sessionUserId == Some(r.user.id))
      && forall a :: a in r.apps <==> a in s.apps && a.userId == r.user.id
    ensures r == LookupFailed ==> dbFails
    ensures dbFails && SessionUserId(cfg, sessionUserId).Some? ==> r == LookupFailed
    ensures !dbFails && SessionUserId(cfg, sessionUserId).Some? ==>
      (r.UserFound? <==> exists u :: u in s.users && u.id == SessionUserId(cfg, sessionUserId).value)
    ensures !dbFails && SessionUserId(cfg, sessionUserId).Some? && !r.UserFound? ==> r == NoUser
  {
    match SessionUserId(cfg, sessionUserId)
    case None => NoUser
    case Some(id) =>
      if dbFails then LookupFailed
      else
        match FindUser(s.users, id)
        case None => NoUser
        case Some(u) => UserFound(u, Filter(s.apps, (a: App) => a.userId == u.id))
  }

  /**
   In a valid store the user loaded for a stored id is that id's one row,
   with exactly its own apps.
   */
  lemma GetUserLoadsRow(cfg: Config, s: Store, u: User)
    requires Valid(s) && u in s.users && cfg.lnBackendType != LndBackendType
    ensures var r := GetUser(cfg, Some(u.id), s, false);
      && r.UserFound? && r.user == u
      && forall a :: a in r.apps <==> a in s.apps && a.userId == u.id
  {
    var r := GetUser(cfg, Some(u.id), s, false);
    AscendingDistinct(s.users, UserKey);
    DistinctKeysUnique(s.users, UserKey, r.user, u);
  }
}
