/**
 Properties of NIP-47 request handling: the end-of-stored-events gate,
 idempotence on the event id, the reply chosen on each path, the state a
 stored request ends in, the shape of every reply, and the store invariants
 the handler preserves.
 */
module Nip47Properties {
  import opened Wrappers
  import opened Text
  import opened Models
  import opened Nip47Service

  /** The request passes every check before the stored row is written. */
  predicate Accepted(svc: ServiceState, request: Event, o: Oracles) {
    && svc.receivedEOS
    && request.id !in NostrIds(svc.store)
    && !o.appLookupFails
    && FindApp(svc.store.apps, request.pubkey).Some?
    && var app := FindApp(svc.store.apps, request.pubkey).value;
    && o.sharedSecret(app.nostrPubkey, svc.cfg.nostrSecretKey).Some?
    && o.decrypt(request.content, o.sharedSecret(app.nostrPubkey, svc.cfg.nostrSecretKey).value).Some?
    && !o.insertEventFails
  }

  /** The sender has no app (or the lookup failed). */
  predicate Unregistered(svc: ServiceState, request: Event, o: Oracles) {
    o.appLookupFails || FindApp(svc.store.apps, request.pubkey).None?
  }

  lemma FindEventComplete(rows: seq<NostrEvent>, nostrId: string)
    ensures FindEvent(rows, nostrId).Some? <==> nostrId in (set e | e in rows :: e.nostrId)
  {
    if FindEvent(rows, nostrId).None? {
      assert forall e :: e in rows ==> e.nostrId != nostrId;
    } else {
      assert FindEvent(rows, nostrId).value in rows;
    }
  }

  // ---------------------------------------------------------------------------
  // Gates before anything is stored
  // ---------------------------------------------------------------------------

  /** Before end of stored events nothing is processed: no reply, no error, nothing stored. */
  lemma IgnoredBeforeEOS(svc: ServiceState, request: Event, o: Oracles, now: int)
    requires !svc.receivedEOS
    ensures HandleEvent(svc, request, o, now) == Step(svc.store, NoReply)
  {
  }

  /** A request whose id is already stored is ignored: no reply, no error, nothing stored. */
  lemma DuplicateIgnored(svc: ServiceState, request: Event, o: Oracles, now: int)
    requires request.id in NostrIds(svc.store)
    ensures HandleEvent(svc, request, o, now) == Step(svc.store, NoReply)
  {
    FindEventComplete(svc.store.events, request.id);
  }

  /**
   Idempotence on the event id: once a request has been stored, handling it
   again, whatever the outside calls now answer, changes nothing and replies
   nothing.
   */
  lemma HandledOnce(svc: ServiceState, request: Event, o: Oracles, o': Oracles, now: int, later: int)
    requires request.id in NostrIds(HandleEvent(svc, request, o, now).store)
    ensures var s1 := HandleEvent(svc, request, o, now).store;
            HandleEvent(svc.(store := s1), request, o', later) == Step(s1, NoReply)
  {
    DuplicateIgnored(svc.(store := HandleEvent(svc, request, o, now).store), request, o', later);
  }

  /**
   A sender without a registered app gets an `UNAUTHORIZED` reply and never
   an error once the shared secret is computed; if building the reply fails
   the handler returns neither. Nothing is stored.
   */
  lemma UnauthorizedSender(svc: ServiceState, request: Event, o: Oracles, now: int)
    requires svc.receivedEOS && request.id !in NostrIds(svc.store)
    requires Unregistered(svc, request, o)
    requires o.sharedSecret(request.pubkey, svc.cfg.nostrSecretKey).Some?
    ensures var out := HandleEvent(svc, request, o, now);
            && out.store == svc.store
            && (out.reply.NoReply? || out.reply.Respond?)
            && (out.reply.Respond? ==> out.reply.body == ErrorResponse(Unauthorized, UnauthorizedMessage))
            && (out.reply.NoReply? <==>
                 CreateResponse(svc.cfg, request, ErrorResponse(Unauthorized, UnauthorizedMessage),
                                o.sharedSecret(request.pubkey, svc.cfg.nostrSecretKey).value, o, now).Failure?)
  {
    FindEventComplete(svc.store.events, request.id);
  }

  /**
   Because nothing is stored for an unregistered sender, the same request
   delivered again is answered again with the same reply: this path is not
   idempotent.
   */
  lemma UnauthorizedRepeats(svc: ServiceState, request: Event, o: Oracles, now: int)
    requires svc.receivedEOS && request.id !in NostrIds(svc.store)
    requires Unregistered(svc, request, o)
    ensures var out := HandleEvent(svc, request, o, now);
            HandleEvent(svc.(store := out.store), request, o, now) == out
  {
    FindEventComplete(svc.store.events, request.id);
  }

  /** A payload that does not decrypt is an error, and nothing is stored. */
  lemma DecryptFailure(svc: ServiceState, request: Event, o: Oracles, now: int)
    requires svc.receivedEOS && request.id !in NostrIds(svc.store) && !o.appLookupFails
    requires FindApp(svc.store.apps, request.pubkey).Some?
    requires var app := FindApp(svc.store.apps, request.pubkey).value;
             && o.sharedSecret(app.nostrPubkey, svc.cfg.nostrSecretKey).Some?
             && o.decrypt(request.content, o.sharedSecret(app.nostrPubkey, svc.cfg.nostrSecretKey).value).None?
    ensures HandleEvent(svc, request, o, now) == Step(svc.store, Fail(DecryptFailed))
  {
    FindEventComplete(svc.store.events, request.id);
  }

  /**
   A JSON request naming any method but `pay_invoice` is stored as `received`
   and answered `NOT_IMPLEMENTED` with the message `Unknown method: <m>`.
   */
  lemma UnknownMethod(svc: ServiceState, request: Event, o: Oracles, now: int)
    requires Accepted(svc, request, o)
    requires var app := FindApp(svc.store.apps, request.pubkey).value;
             var payload := o.decrypt(request.content, o.sharedSecret(app.nostrPubkey, svc.cfg.nostrSecretKey).value).value;
             && !HasPrefix(payload, "ln")
             && o.unmarshal(payload).Some?
             && o.unmarshal(payload).value.requestMethod != PayInvoiceMethod
    ensures var app := FindApp(svc.store.apps, request.pubkey).value;
            var ss := o.sharedSecret(app.nostrPubkey, svc.cfg.nostrSecretKey).value;
            var m := o.unmarshal(o.decrypt(request.content, ss).value).value.requestMethod;
            var out := HandleEvent(svc, request, o, now);
            && out.store == svc.store.(events := svc.store.events + [ReceivedRow(svc.store, app, request)])
            && out.reply == Answer(svc.cfg, request, ErrorResponse(NotImplemented, UnknownMethodPrefix + m), ss, o, now)
  {
    FindEventComplete(svc.store.events, request.id);
  }

  /** The invoice a decrypted payload asks to pay, if it names one. */
  function InvoiceOf(payload: string, o: Oracles): Option<string> {
    if HasPrefix(payload, "ln") then Some(payload)
    else match o.unmarshal(payload)
      case None => None
      case Some(req) => if req.requestMethod == PayInvoiceMethod then Some(req.invoice) else None
  }

  /**
   The payment path. With a decodable invoice and a successful insert, the
   payment row (amount = millisatoshi / 1000, truncated; the invoice as its
   payment request; linked to the stored request) is in the store whatever
   the Lightning call answers, because it is inserted before the call. A
   failed payment leaves the request in state `error` and replies
   `INTERNAL`; a successful one leaves it `executed`, records the preimage
   and replies with result type `pay_invoice` and the preimage.
   */
  lemma PaymentPath(svc: ServiceState, request: Event, o: Oracles, now: int)
    requires Accepted(svc, request, o)
    requires var app := FindApp(svc.store.apps, request.pubkey).value;
             var payload := o.decrypt(request.content, o.sharedSecret(app.nostrPubkey, svc.cfg.nostrSecretKey).value).value;
             && InvoiceOf(payload, o).Some?
             && o.decodeInvoice(InvoiceOf(payload, o).value).Some?
             && !o.insertPaymentFails
    ensures var app := FindApp(svc.store.apps, request.pubkey).value;
            var ss := o.sharedSecret(app.nostrPubkey, svc.cfg.nostrSecretKey).value;
            var bolt11 := InvoiceOf(o.decrypt(request.content, ss).value, o).value;
            var msat := o.decodeInvoice(bolt11).value;
            var row := ReceivedRow(svc.store, app, request);
            var pay := PendingPayment(svc.store, app, row, bolt11, msat);
            var out := HandleEvent(svc, request, o, now);
            && pay.amount * 1000 <= msat < (pay.amount + 1) * 1000
            && pay.paymentRequest == bolt11 && pay.nostrEventId == row.id && pay.appId == app.id
            && match o.pay(request.pubkey, bolt11)
               case PayFailed(msg) =>
                 && out.store.payments == svc.store.payments + [pay]
                 && out.store.events == svc.store.events + [row.(state := Error)]
                 && out.reply == Answer(svc.cfg, request, ErrorResponse(Internal, PaymentFailedPrefix + msg), ss, o, now)
               case Paid(preimage) =>
                 && out.store.payments == svc.store.payments + [pay.(preimage := preimage)]
                 && out.store.events == svc.store.events + [row.(state := Executed)]
                 && out.reply == Answer(svc.cfg, request, Nip47Response(None, Some(PayResult(preimage)), PayInvoiceMethod), ss, o, now)
  {
    FindEventComplete(svc.store.events, request.id);
    var app := FindApp(svc.store.apps, request.pubkey).value;
    var row := ReceivedRow(svc.store, app, request);
    var ss := o.sharedSecret(app.nostrPubkey, svc.cfg.nostrSecretKey).value;
    var bolt11 := InvoiceOf(o.decrypt(request.content, ss).value, o).value;
    var pay := PendingPayment(svc.store, app, row, bolt11, o.decodeInvoice(bolt11).value);
    UpdateFresh(svc.store.events, row, Error);
    UpdateFresh(svc.store.events, row, Executed);
    match o.pay(request.pubkey, bolt11)
    case PayFailed(_) =>
    case Paid(preimage) =>
      PreimageFresh(svc.store.payments, pay, preimage);
  }

  // ---------------------------------------------------------------------------
  // What each stage does to the store and to the reply
  // ---------------------------------------------------------------------------

  /** The codes `HandleEvent` can answer with. */
  predicate HandlerCode(code: string) {
    code == CodeString(Unauthorized) || code == CodeString(NotImplemented) || code == CodeString(Internal)
  }

  /**
   A reply (if any) is a response event (kind 23195) authored by the service
   identity, tagged exactly `["p", sender]` and `["e", request id]`, whose
   body carries either only an error member with one of the handler's codes,
   or exactly a result and `result_type` `pay_invoice`.
   */
  predicate Shaped(cfg: Config, request: Event, now: int, r: Reply) {
    r.Respond? ==>
      && r.event.kind == ResponseKind
      && r.event.pubkey == cfg.identityPubkey
      && r.event.tags == [["p", request.pubkey], ["e", request.id]]
      && r.event.createdAt == now
      && (|| (JsonKeys(r.body) == ["error"] && HandlerCode(r.body.error.value.code))
          || (JsonKeys(r.body) == ["result", "result_type"] && r.body.resultType == PayInvoiceMethod))
  }

  /** A body the handler may send: a handler error code alone, or a `pay_invoice` result. */
  predicate HandlerBody(body: Nip47Response) {
    || (body.error.Some? && body.result.None? && body.resultType == "" && HandlerCode(body.error.value.code))
    || (body.error.None? && body.result.Some? && body.resultType == PayInvoiceMethod)
  }

  lemma AnswerShaped(cfg: Config, request: Event, body: Nip47Response, ss: Secret, o: Oracles, now: int)
    requires HandlerBody(body)
    ensures Shaped(cfg, request, now, Answer(cfg, request, body, ss, o, now))
    ensures !Answer(cfg, request, body, ss, o, now).NoReply?
  {
  }

  /**
   The store after a request passed its checks: its row appended, now in
   state received, executed or error; at most one payment appended, for that
   row and app; nothing else changed.
   */
  predicate AcceptedEffect(s0: Store, row: NostrEvent, payId: nat, s: Store) {
    && s.users == s0.users && s.apps == s0.apps
    && s.permissions == s0.permissions && s.identities == s0.identities
    && |s.events| == |s0.events| + 1
    && s.events[..|s0.events|] == s0.events
    && s.events[|s0.events|] == row.(state := s.events[|s0.events|].state)
    && s.events[|s0.events|].state in {Received, Executed, Error}
    && |s0.payments| <= |s.payments| <= |s0.payments| + 1
    && s.payments[..|s0.payments|] == s0.payments
    && (|s.payments| == |s0.payments| + 1 ==>
          && s.payments[|s0.payments|].id == payId
          && s.payments[|s0.payments|].appId == row.appId
          && s.payments[|s0.payments|].nostrEventId == row.id)
  }

  /** Appending the received row alone already has the accepted effect. */
  lemma ReceivedEffect(s0: Store, row: NostrEvent, payId: nat)
    requires row.state == Received
    ensures AcceptedEffect(s0, row, payId, s0.(events := s0.events + [row]))
  {
    assert (s0.events + [row])[..|s0.events|] == s0.events;
  }

  /** A failed payment leaves the pending payment row and marks the request `error`. */
  lemma PayFailedEffect(s0: Store, row: NostrEvent, payment: Payment)
    requires forall e :: e in s0.events ==> e.id < row.id
    requires row.state == Received && payment.appId == row.appId && payment.nostrEventId == row.id
    ensures var s2 := s0.(events := s0.events + [row], payments := s0.payments + [payment]);
            AcceptedEffect(s0, row, payment.id, s2.(events := UpdateEvent(s2.events, row.id, Error)))
  {
    UpdateFresh(s0.events, row, Error);
    assert (s0.payments + [payment])[..|s0.payments|] == s0.payments;
  }

  /** A settled payment records the preimage on its row and marks the request `executed`. */
  lemma PaidEffect(s0: Store, row: NostrEvent, payment: Payment, preimage: string)
    requires forall e :: e in s0.events ==> e.id < row.id
    requires forall p :: p in s0.payments ==> p.id < payment.id
    requires row.state == Received && payment.appId == row.appId && payment.nostrEventId == row.id
    ensures var s2 := s0.(events := s0.events + [row], payments := s0.payments + [payment]);
            AcceptedEffect(s0, row, payment.id,
              s2.(events := UpdateEvent(s2.events, row.id, Executed), payments := UpdatePreimage(s2.payments, payment.id, preimage)))
  {
    UpdateFresh(s0.events, row, Executed);
    PreimageFresh(s0.payments, payment, preimage);
  }

  lemma PayInvoiceEffect(svc: ServiceState, s0: Store, app: App, row: NostrEvent, request: Event, bolt11: string, ss: Secret, o: Oracles, now: int)
    requires forall e :: e in s0.events ==> e.id < row.id
    requires row.appId == app.id && row.state == Received
    ensures var out := PayInvoice(svc, s0.(events := s0.events + [row]), app, row, request, bolt11, ss, o, now);
            && AcceptedEffect(s0, row, NextKey(s0.payments, PaymentKey), out.store)
            && Shaped(svc.cfg, request, now, out.reply)
  {
    var s1 := s0.(events := s0.events + [row]);
    var payId := NextKey(s0.payments, PaymentKey);
    if o.decodeInvoice(bolt11).None? || o.insertPaymentFails {
      ReceivedEffect(s0, row, payId);
    } else {
      var pay := PendingPayment(s1, app, row, bolt11, o.decodeInvoice(bolt11).value);
      match o.pay(request.pubkey, bolt11)
      case PayFailed(msg) =>
        PayFailedEffect(s0, row, pay);
        AnswerShaped(svc.cfg, request, ErrorResponse(Internal, PaymentFailedPrefix + msg), ss, o, now);
      case Paid(preimage) =>
        PaidEffect(s0, row, pay, preimage);
        AnswerShaped(svc.cfg, request, Nip47Response(None, Some(PayResult(preimage)), PayInvoiceMethod), ss, o, now);
    }
  }

  lemma DispatchEffect(svc: ServiceState, s0: Store, app: App, row: NostrEvent, request: Event, payload: string, ss: Secret, o: Oracles, now: int)
    requires forall e :: e in s0.events ==> e.id < row.id
    requires row.appId == app.id && row.state == Received
    ensures var out := Dispatch(svc, s0.(events := s0.events + [row]), app, row, request, payload, ss, o, now);
            && AcceptedEffect(s0, row, NextKey(s0.payments, PaymentKey), out.store)
            && Shaped(svc.cfg, request, now, out.reply)
  {
    if HasPrefix(payload, "ln") {
      PayInvoiceEffect(svc, s0, app, row, request, payload, ss, o, now);
    } else if o.unmarshal(payload).None? {
      ReceivedEffect(s0, row, NextKey(s0.payments, PaymentKey));
    } else {
      var req := o.unmarshal(payload).value;
      if req.requestMethod != PayInvoiceMethod {
        ReceivedEffect(s0, row, NextKey(s0.payments, PaymentKey));
        AnswerShaped(svc.cfg, request, ErrorResponse(NotImplemented, UnknownMethodPrefix + req.requestMethod), ss, o, now);
      } else {
        PayInvoiceEffect(svc, s0, app, row, request, req.invoice, ss, o, now);
      }
    }
  }

  /** An accepted request is stored as received and handed to `Dispatch`. */
  lemma AcceptedDispatches(svc: ServiceState, request: Event, o: Oracles, now: int)
    requires Accepted(svc, request, o)
    ensures var s := svc.store;
            var app := FindApp(s.apps, request.pubkey).value;
            var ss := o.sharedSecret(app.nostrPubkey, svc.cfg.nostrSecretKey).value;
            var row := ReceivedRow(s, app, request);
            HandleEvent(svc, request, o, now)
              == Dispatch(svc, s.(events := s.events + [row]), app, row, request, o.decrypt(request.content, ss).value, ss, o, now)
  {
    FindEventComplete(svc.store.events, request.id);
  }

  /** A request that fails a check before its insert leaves the store as it was. */
  lemma RejectedUnchanged(svc: ServiceState, request: Event, o: Oracles, now: int)
    requires !Accepted(svc, request, o)
    ensures var out := HandleEvent(svc, request, o, now);
            out.store == svc.store && Shaped(svc.cfg, request, now, out.reply)
  {
    FindEventComplete(svc.store.events, request.id);
  }

  /**
   The whole effect of `HandleEvent`: a request that fails a check before its
   insert leaves the store exactly as it was; an accepted one has the effect
   above. Every reply is shaped as a response to the request.
   */
  lemma HandleEventEffect(svc: ServiceState, request: Event, o: Oracles, now: int)
    ensures var out := HandleEvent(svc, request, o, now);
            && (!Accepted(svc, request, o) ==> out.store == svc.store)
            && (Accepted(svc, request, o) ==>
                  var app := FindApp(svc.store.apps, request.pubkey).value;
                  AcceptedEffect(svc.store, ReceivedRow(svc.store, app, request), NextKey(svc.store.payments, PaymentKey), out.store))
            && Shaped(svc.cfg, request, now, out.reply)
  {
    if Accepted(svc, request, o) {
      var s := svc.store;
      var app := FindApp(s.apps, request.pubkey).value;
      var ss := o.sharedSecret(app.nostrPubkey, svc.cfg.nostrSecretKey).value;
      AcceptedDispatches(svc, request, o, now);
      DispatchEffect(svc, s, app, ReceivedRow(s, app, request), request, o.decrypt(request.content, ss).value, ss, o, now);
    } else {
      RejectedUnchanged(svc, request, o, now);
    }
  }

  /** Updating the freshly appended row leaves every earlier row as it was. */
  lemma UpdateFresh(rows: seq<NostrEvent>, row: NostrEvent, st: EventState)
    requires forall e :: e in rows ==> e.id < row.id
    ensures UpdateEvent(rows + [row], row.id, st) == rows + [row.(state := st)]
  {
    var r := UpdateEvent(rows + [row], row.id, st);
    forall i | 0 <= i < |rows|
      ensures r[i] == rows[i]
    {
      assert rows[i] in rows;
    }
  }

  lemma PreimageFresh(rows: seq<Payment>, p: Payment, preimage: string)
    requires forall x :: x in rows ==> x.id < p.id
    ensures UpdatePreimage(rows + [p], p.id, preimage) == rows + [p.(preimage := preimage)]
  {
    var r := UpdatePreimage(rows + [p], p.id, preimage);
    forall i | 0 <= i < |rows|
      ensures r[i] == rows[i]
    {
      assert rows[i] in rows;
    }
  }

  // ---------------------------------------------------------------------------
  // Consequences
  // ---------------------------------------------------------------------------

  /**
   Every reply is a kind-23195 event by the service identity tagged exactly
   `["p", sender]`, `["e", request id]`, carrying an error with code
   `UNAUTHORIZED`, `NOT_IMPLEMENTED` or `INTERNAL` and nothing else, or a
   result with `result_type` `pay_invoice` and no error.
   */
  lemma ReplyShape(svc: ServiceState, request: Event, o: Oracles, now: int)
    ensures Shaped(svc.cfg, request, now, HandleEvent(svc, request, o, now).reply)
  {
    HandleEventEffect(svc, request, o, now);
  }

  lemma NostrIdsAppend(s: Store, row: NostrEvent)
    ensures NostrIds(s.(events := s.events + [row])) == NostrIds(s) + {row.nostrId}
  {
    var t := s.(events := s.events + [row]);
    assert row in t.events;
    forall x | x in NostrIds(t)
      ensures x in NostrIds(s) + {row.nostrId}
    {
      var e :| e in t.events && e.nostrId == x;
      if e != row {
        assert e in s.events;
      }
    }
  }

  /**
   A handled request gets a stored row exactly when it passed every check up
   to the insert; that row is the only change to the set of stored ids.
   */
  lemma StoredIffAccepted(svc: ServiceState, request: Event, o: Oracles, now: int)
    ensures var out := HandleEvent(svc, request, o, now);
            NostrIds(out.store) == NostrIds(svc.store) + (if Accepted(svc, request, o) then {request.id} else {})
  {
    HandleEventEffect(svc, request, o, now);
    if Accepted(svc, request, o) {
      var app := FindApp(svc.store.apps, request.pubkey).value;
      AcceptedIds(svc.store, ReceivedRow(svc.store, app, request), NextKey(svc.store.payments, PaymentKey),
                  HandleEvent(svc, request, o, now).store);
    }
  }

  /** An accepted effect adds exactly the row's Nostr id to the stored ids. */
  lemma AcceptedIds(s0: Store, row: NostrEvent, payId: nat, s: Store)
    requires AcceptedEffect(s0, row, payId, s)
    ensures NostrIds(s) == NostrIds(s0) + {row.nostrId}
  {
    var last := s.events[|s0.events|];
    assert s.events == s0.events + [last];
    NostrIdsAppend(s0, last);
    assert NostrIds(s) == NostrIds(s0.(events := s0.events + [last]));
  }

  /** The frame facts of an accepted effect, read off its definition. */
  lemma EffectFrame(s0: Store, row: NostrEvent, payId: nat, s: Store)
    requires AcceptedEffect(s0, row, payId, s)
    ensures && s.users == s0.users && s.apps == s0.apps
            && s.permissions == s0.permissions && s.identities == s0.identities
            && |s.events| == |s0.events| + 1
            && s.events[..|s0.events|] == s0.events
            && |s0.payments| <= |s.payments|
            && s.payments[..|s0.payments|] == s0.payments
            && forall i :: |s0.events| <= i < |s.events| ==>
                 s.events[i].nostrId == row.nostrId && s.events[i].state != Replied
  {
    assert s.events[|s0.events|].nostrId == row.nostrId;
  }

  /**
   The request's row, when one is written, ends the call in `received`,
   `executed` or `error`, never `replied`, which only publishing sets; every
   earlier row and payment is still there, unchanged, and users, apps,
   permissions and identities are untouched.
   */
  lemma HandleEventFrame(svc: ServiceState, request: Event, o: Oracles, now: int)
    ensures var out := HandleEvent(svc, request, o, now);
            && out.store.users == svc.store.users
            && out.store.apps == svc.store.apps
            && out.store.permissions == svc.store.permissions
            && out.store.identities == svc.store.identities
            && |svc.store.events| <= |out.store.events| <= |svc.store.events| + 1
            && out.store.events[..|svc.store.events|] == svc.store.events
            && |svc.store.payments| <= |out.store.payments|
            && out.store.payments[..|svc.store.payments|] == svc.store.payments
            && forall i :: |svc.store.events| <= i < |out.store.events| ==>
                 out.store.events[i].nostrId == request.id && out.store.events[i].state != Replied
  {
    var out := HandleEvent(svc, request, o, now);
    if Accepted(svc, request, o) {
      var app := FindApp(svc.store.apps, request.pubkey).value;
      var row := ReceivedRow(svc.store, app, request);
      var payId := NextKey(svc.store.payments, PaymentKey);
      assert AcceptedEffect(svc.store, row, payId, out.store) by { HandleEventEffect(svc, request, o, now); }
      EffectFrame(svc.store, row, payId, out.store);
    } else {
      assert out.store == svc.store by { RejectedUnchanged(svc, request, o, now); }
    }
  }

  /** Marking a request replied only moves its state forward and touches no other row. */
  lemma MarkRepliedAdvances(s: Store, requestId: string, replyId: string)
    requires Valid(s)
    ensures var r := MarkReplied(s, requestId, replyId);
            && |r.events| == |s.events|
            && forall i :: 0 <= i < |s.events| ==>
                 && s.events[i].state.Rank() <= r.events[i].state.Rank()
                 && (s.events[i].nostrId != requestId ==> r.events[i] == s.events[i])
                 && (s.events[i].nostrId == requestId ==> r.events[i].state == Replied && r.events[i].replyId == replyId)
  {
    match FindEvent(s.events, requestId)
    case None =>
    case Some(e) =>
      forall i | 0 <= i < |s.events|
        ensures s.events[i].id == e.id <==> s.events[i].nostrId == requestId
      {
        SameRowKeys(s, e, requestId, i);
      }
  }

  /** In a valid store the row found for a request id is the only row with its key or its id. */
  lemma SameRowKeys(s: Store, e: NostrEvent, requestId: string, i: int)
    requires Valid(s) && FindEvent(s.events, requestId) == Some(e) && 0 <= i < |s.events|
    ensures s.events[i].id == e.id <==> s.events[i].nostrId == requestId
  {
    assert s.events[i] in s.events;
    AscendingDistinct(s.events, EventKey);
    if s.events[i].id == e.id {
      DistinctKeysUnique(s.events, EventKey, s.events[i], e);
    }
    if s.events[i].nostrId == requestId {
      DistinctKeysUnique(s.events, NostrIdKey, s.events[i], e);
    }
  }

  /** An unauthorised reply leaves no row behind, so marking it replied changes nothing. */
  lemma UnauthorizedNotMarked(svc: ServiceState, request: Event, o: Oracles, now: int, replyId: string)
    requires svc.receivedEOS && request.id !in NostrIds(svc.store)
    requires Unregistered(svc, request, o)
    ensures var out := HandleEvent(svc, request, o, now);
            MarkReplied(out.store, request.id, replyId) == out.store
  {
    FindEventComplete(svc.store.events, request.id);
  }

  // ---------------------------------------------------------------------------
  // Store invariants
  // ---------------------------------------------------------------------------

  lemma AppendEventValid(s: Store, row: NostrEvent)
    requires Valid(s)
    requires forall e :: e in s.events ==> e.id < row.id
    requires row.nostrId !in NostrIds(s)
    requires row.appId in AppIds(s)
    ensures Valid(s.(events := s.events + [row]))
  {
    var r := s.(events := s.events + [row]);
    AppendAscending(s.events, EventKey, row);
    AppendDistinctKeys(s.events, NostrIdKey, row);
    forall p | p in r.payments
      ensures PaymentLinked(r, p)
    {
      assert PaymentLinked(s, p);
      var e :| e in s.events && e.id == p.nostrEventId;
      assert e in r.events;
    }
  }

  lemma AppendPaymentValid(s: Store, p: Payment)
    requires Valid(s)
    requires forall x :: x in s.payments ==> x.id < p.id
    requires PaymentLinked(s, p)
    ensures Valid(s.(payments := s.payments + [p]))
  {
    AppendAscending(s.payments, PaymentKey, p);
  }

  /** The effect of an accepted request keeps a valid store valid. */
  lemma AcceptedEffectValid(s0: Store, row: NostrEvent, payId: nat, s: Store)
    requires Valid(s0) && AcceptedEffect(s0, row, payId, s)
    requires forall e :: e in s0.events ==> e.id < row.id
    requires row.nostrId !in NostrIds(s0) && row.appId in AppIds(s0)
    requires forall p :: p in s0.payments ==> p.id < payId
    ensures Valid(s)
  {
    var last := s.events[|s0.events|];
    assert s.events == s0.events + [last];
    AppendEventValid(s0, last);
    var sA := s0.(events := s0.events + [last]);
    if |s.payments| == |s0.payments| {
      assert s.payments == s0.payments;
      assert s == sA;
    } else {
      var p := s.payments[|s0.payments|];
      assert s.payments == s0.payments + [p];
      assert last in sA.events;
      AscendingDistinct(sA.events, EventKey);
      forall e | e in sA.events && e.id == p.nostrEventId
        ensures e.appId == p.appId
      {
        DistinctKeysUnique(sA.events, EventKey, e, last);
      }
      AppendPaymentValid(sA, p);
      assert s == sA.(payments := sA.payments + [p]);
    }
  }

  /** `HandleEvent` keeps every key unique (including the event-id index) and every link intact. */
  lemma HandleEventValid(svc: ServiceState, request: Event, o: Oracles, now: int)
    requires Valid(svc.store)
    ensures Valid(HandleEvent(svc, request, o, now).store)
  {
    HandleEventEffect(svc, request, o, now);
    if Accepted(svc, request, o) {
      var s0 := svc.store;
      var app := FindApp(s0.apps, request.pubkey).value;
      assert app.id in AppIds(s0);
      AcceptedEffectValid(s0, ReceivedRow(s0, app, request), NextKey(s0.payments, PaymentKey), HandleEvent(svc, request, o, now).store);
    }
  }
}
