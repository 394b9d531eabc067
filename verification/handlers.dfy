/**
 The web handlers' rules: the "budget renews in" text shown on an app's page,
 and what creating an app does — the client key check, the spending
 permission it may attach, the end-of-day expiry, and the two ways the new
 connection is handed to the client (a redirect carrying the wallet's relay
 and key, or a `nostr+walletconnect://` pairing URI).
 */
module Handlers {
  import opened Wrappers
  import opened Text
  import opened Models
  import opened Nip47Service

  // ---------------------------------------------------------------------------
  // Time left in a budget
  // ---------------------------------------------------------------------------

  /** Durations are Go `time.Duration` values: integer nanoseconds. */
  const Minute: int := 60_000_000_000
  const Hour: int := 60 * Minute
  const Day: int := 24 * Hour
  const Month: int := 30 * Day

  /**
   The end of a budget period: none (the zero time), or the time left until
   it, already taken from the clock by the caller.
   */
  datatype BudgetEnd = NoEnd | EndsIn(remaining: int)

  /** The figures the text is built from. */
  datatype BudgetDisplay =
    | Dashes
    | HoursMinutes(hours: int, minutes: int)
    | Days(days: int)
    | MonthsDays(months: int, days: int)

  /** Whole hours are whole minutes divided by sixty. */
  lemma HoursOfMinutes(a: int)
    requires a >= 0
    ensures a / Hour == (a / Minute) / 60
  {
  }

  /** Whole months are whole days divided by thirty. */
  lemma MonthsOfDays(a: int)
    requires a >= 0
    ensures a / Month == (a / Day) / 30
  {
  }

  /**
   The figures `getEndOfBudgetString` shows: hours and minutes under a day,
   whole days under thirty days, otherwise thirty-day months and the days
   left over. Every figure is truncated toward zero, so a past end shows as
   negative hours and minutes.
   */
  function BudgetDisplayOf(end: BudgetEnd): (r: BudgetDisplay)
    ensures r.Dashes? <==> end.NoEnd?
    ensures end.EndsIn? && 0 <= end.remaining < Day ==>
      && r.HoursMinutes? && 0 <= r.hours < 24 && 0 <= r.minutes < 60
      && (r.hours * 60 + r.minutes) * Minute <= end.remaining < (r.hours * 60 + r.minutes + 1) * Minute
    ensures end.EndsIn? && end.remaining < 0 ==>
      && r.HoursMinutes? && r.hours <= 0 && -60 < r.minutes <= 0
      && (r.hours * 60 + r.minutes - 1) * Minute < end.remaining <= (r.hours * 60 + r.minutes) * Minute
    ensures end.EndsIn? && Day <= end.remaining < Month ==>
      && r.Days? && 1 <= r.days < 30
      && r.days * Day <= end.remaining < (r.days + 1) * Day
    ensures end.EndsIn? && Month <= end.remaining ==>
      && r.MonthsDays? && r.months >= 1 && 0 <= r.days < 30
      && (r.months * 30 + r.days) * Day <= end.remaining < (r.months * 30 + r.days + 1) * Day
  {
    match end
    case NoEnd => Dashes
    case EndsIn(d) =>
      if d < Day then
        var minutes := TruncDiv(d, Minute);
        var h := TruncDiv(d, Hour);
        assert h == TruncDiv(minutes, 60) by {
          HoursOfMinutes(if d >= 0 then d else -d);
        }
        HoursMinutes(h, TruncRem(minutes, 60))
      else if d < Month then
        Days(TruncDiv(d, Day))
      else
        var days := TruncDiv(d, Day);
        assert TruncDiv(d, Month) == TruncDiv(days, 30) by {
          MonthsOfDays(d);
        }
        MonthsDays(TruncDiv(d, Month), TruncRem(days, 30))
  }

  /** The words around the figures, as the handler formats them. */
  function RenderBudget(d: BudgetDisplay): string {
    match d
    case Dashes => "--"
    case HoursMinutes(h, m) => Join([IntToString(h), "hours", "and", IntToString(m), "minutes"], ' ')
    case Days(k) => Join([IntToString(k), "days"], ' ')
    case MonthsDays(mo, k) =>
      if k > 0 then Join([IntToString(mo), "months", IntToString(k), "days"], ' ')
      else Join([IntToString(mo), "months"], ' ')
  }

  /**
   `getEndOfBudgetString`. For every 64-bit duration the text loses nothing:
   the figures computed from the duration read back from it.
   */
  function EndOfBudgetString(end: BudgetEnd): (r: string)
    ensures (end.EndsIn? ==> In64(end.remaining)) ==> ParseBudget(r) == Some(BudgetDisplayOf(end))
  {
    var d := BudgetDisplayOf(end);
    assert (end.EndsIn? ==> In64(end.remaining)) ==> ParseBudget(RenderBudget(d)) == Some(d) by {
      if end.EndsIn? ==> In64(end.remaining) {
        assert Displayable(d);
        ParseRender(d);
      }
    }
    RenderBudget(d)
  }

  /** Reads the figures back out of a budget text. */
  function ParseBudget(s: string): (r: Option<BudgetDisplay>) {
    if s == "--" then Some(Dashes) else ParseWords(Split(s, ' '))
  }

  /** Reads the figures back out of the words of a budget text. */
  function ParseWords(w: seq<string>): (r: Option<BudgetDisplay>) {
    if |w| == 5 && w[1] == "hours" && w[2] == "and" && w[4] == "minutes" then
      Some(HoursMinutes(AtoiOrZero(w[0]), AtoiOrZero(w[3])))
    else if |w| == 2 && w[1] == "days" then Some(Days(AtoiOrZero(w[0])))
    else if |w| == 2 && w[1] == "months" then Some(MonthsDays(AtoiOrZero(w[0]), 0))
    else if |w| == 4 && w[1] == "months" && w[3] == "days" then
      Some(MonthsDays(AtoiOrZero(w[0]), AtoiOrZero(w[2])))
    else None
  }

  predicate In64(i: int) {
    MinInt64 <= i <= MaxInt64
  }

  /** Figures a `time.Duration` can produce, with a month's days never negative. */
  predicate Displayable(d: BudgetDisplay) {
    match d
    case Dashes => true
    case HoursMinutes(h, m) => In64(h) && In64(m)
    case Days(k) => In64(k)
    case MonthsDays(mo, k) => In64(mo) && 0 <= k <= MaxInt64
  }

  lemma NumberHasNoSpace(i: int)
    ensures ' ' !in IntToString(i)
  {
    var s := IntToString(i);
    var digits := if i < 0 then s[1..] else s;
    assert AllDigits(digits);
    forall k | 0 <= k < |s|
      ensures s[k] != ' '
    {
      if i < 0 && k > 0 {
        assert s[k] == digits[k - 1];
      }
    }
  }

  /** Splitting a budget text on spaces gives back its words. */
  lemma WordsOf(w: seq<string>)
    requires |w| >= 2
    requires forall i :: 0 <= i < |w| ==> ' ' !in w[i]
    ensures Split(Join(w, ' '), ' ') == w
    ensures Join(w, ' ') != "--"
  {
    SplitJoin(w, ' ');
    assert Join(w, ' ')[|w[0]|] == ' ';
  }

  lemma ParseHoursMinutes(h: int, m: int)
    requires In64(h) && In64(m)
    ensures ParseBudget(RenderBudget(HoursMinutes(h, m))) == Some(HoursMinutes(h, m))
  {
    var w := [IntToString(h), "hours", "and", IntToString(m), "minutes"];
    NumberHasNoSpace(h);
    NumberHasNoSpace(m);
    WordsOf(w);
    assert ParseWords(w) == Some(HoursMinutes(h, m)) by {
      AtoiIntToString(h);
      AtoiIntToString(m);
    }
  }

  lemma ParseDays(k: int)
    requires In64(k)
    ensures ParseBudget(RenderBudget(Days(k))) == Some(Days(k))
  {
    var w := [IntToString(k), "days"];
    NumberHasNoSpace(k);
    WordsOf(w);
    assert ParseWords(w) == Some(Days(k)) by {
      AtoiIntToString(k);
    }
  }

  lemma ParseMonths(mo: int)
    requires In64(mo)
    ensures ParseBudget(RenderBudget(MonthsDays(mo, 0))) == Some(MonthsDays(mo, 0))
  {
    var w := [IntToString(mo), "months"];
    NumberHasNoSpace(mo);
    WordsOf(w);
    assert ParseWords(w) == Some(MonthsDays(mo, 0)) by {
      AtoiIntToString(mo);
    }
  }

  lemma ParseMonthsAndDays(mo: int, k: int)
    requires In64(mo) && 0 < k <= MaxInt64
    ensures ParseBudget(RenderBudget(MonthsDays(mo, k))) == Some(MonthsDays(mo, k))
  {
    var w := [IntToString(mo), "months", IntToString(k), "days"];
    NumberHasNoSpace(mo);
    NumberHasNoSpace(k);
    WordsOf(w);
    assert ParseWords(w) == Some(MonthsDays(mo, k)) by {
      AtoiIntToString(mo);
      AtoiIntToString(k);
    }
  }

  /** The text loses nothing: the figures can be read back from it. */
  lemma ParseRender(d: BudgetDisplay)
    requires Displayable(d)
    ensures ParseBudget(RenderBudget(d)) == Some(d)
  {
    match d
    case Dashes =>
    case HoursMinutes(h, m) => ParseHoursMinutes(h, m);
    case Days(k) => ParseDays(k);
    case MonthsDays(mo, k) =>
      if k == 0 { ParseMonths(mo); } else { ParseMonthsAndDays(mo, k); }
  }

  // ---------------------------------------------------------------------------
  // Creating an app
  // ---------------------------------------------------------------------------

  /** A client-supplied key must hex-decode to exactly 32 bytes. */
  predicate ValidPairingPubkey(s: string) {
    match HexDecode(s)
    case Some(b) => |b| == 32
    case None => false
  }

  /** The check accepts exactly the 64-digit hex strings, in either case. */
  lemma PairingPubkeyIff(s: string)
    ensures ValidPairingPubkey(s) <==> |s| == 64 && AllHex(s)
  {
  }

  /** A key written by Go's hex encoder from 32 bytes always passes. */
  lemma EncodedKeyAccepted(key: seq<byte>)
    requires |key| == 32
    ensures ValidPairingPubkey(HexEncode(key))
  {
    HexEncodeDecode(key);
  }

  /** A spending permission is stored only when it limits something. */
  predicate NeedsPermission(maxAmount: int, expiresAt: Time) {
    maxAmount > 0 || !expiresAt.IsZero()
  }

  /** The last whole second of the same day, in the same location; the zero time stays zero. */
  function EndOfDay(t: Time): (r: Time)
    ensures r.IsZero() <==> t.IsZero()
    ensures t.At? ==>
      && r.location == t.location
      && (r.civil.year, r.civil.month, r.civil.day) == (t.civil.year, t.civil.month, t.civil.day)
      && (ValidCivil(t.civil) ==> ValidCivil(r.civil))
      && r.civil.hour == 23 && r.civil.minute == 59 && r.civil.second == 59 && r.civil.nanosecond == 0
  {
    match t
    case ZeroTime => ZeroTime
    case At(c, loc) => At(CivilTime(c.year, c.month, c.day, 23, 59, 59, 0), loc)
  }

  /** Nanoseconds since midnight. */
  function ClockOf(c: CivilTime): int {
    ((c.hour * 60 + c.minute) * 60 + c.second) * 1_000_000_000 + c.nanosecond
  }

  /** Snapping twice is snapping once. */
  lemma EndOfDayIdempotent(t: Time)
    ensures EndOfDay(EndOfDay(t)) == EndOfDay(t)
  {
  }

  /**
   The snapped expiry is never earlier than the chosen one, and it is the
   latest whole second of that day: 86,399 seconds after midnight exactly.
   */
  lemma EndOfDayLatest(t: Time, u: CivilTime)
    requires t.At? && ValidCivil(t.civil) && ValidCivil(u)
    requires (u.year, u.month, u.day) == (t.civil.year, t.civil.month, t.civil.day) && u.nanosecond == 0
    ensures ClockOf(t.civil) <= ClockOf(EndOfDay(t).civil) + 999_999_999
    ensures ClockOf(u) <= ClockOf(EndOfDay(t).civil)
    ensures ClockOf(EndOfDay(t).civil) == 86_399 * 1_000_000_000
  {
  }

  /** The connection string scheme. */
  const PairingScheme := "nostr+walletconnect://"

  /**
   The pairing URI: the wallet's identity key, then the relay, the client's
   secret (empty when the client supplied its own key) and, when the user
   has one, the lightning address.
   */
  function PairingUri(identityPubkey: string, relay: string, secret: string, lightningAddress: string): string {
    PairingScheme + identityPubkey + "?relay=" + relay + "&secret=" + secret
      + (if lightningAddress != "" then "&lud16=" + lightningAddress else "")
  }

  /** What a client learns from a pairing URI. */
  datatype Pairing = Pairing(walletPubkey: string, relay: string, secret: string, lud16: string)

  function ParamValue(param: string, name: string): string
    requires HasPrefix(param, name)
  {
    param[|name|..]
  }

  /** A client's reading of the query of a pairing URI. */
  function ParsePairingParams(params: seq<string>): Option<Pairing> {
    if |params| == 2 && HasPrefix(params[0], "relay=") && HasPrefix(params[1], "secret=") then
      Some(Pairing("", ParamValue(params[0], "relay="), ParamValue(params[1], "secret="), ""))
    else if |params| == 3 && HasPrefix(params[0], "relay=") && HasPrefix(params[1], "secret=")
      && HasPrefix(params[2], "lud16=") then
      Some(Pairing("", ParamValue(params[0], "relay="), ParamValue(params[1], "secret="),
                   ParamValue(params[2], "lud16=")))
    else None
  }

  /** A client's reading of a pairing URI. */
  function ParsePairingUri(uri: string): Option<Pairing> {
    if !HasPrefix(uri, PairingScheme) then None
    else
      var rest := uri[|PairingScheme|..];
      if '?' !in rest then None
      else
        var k := IndexOf(rest, '?');
        match ParsePairingParams(Split(rest[k + 1..], '&'))
        case None => None
        case Some(p) => Some(p.(walletPubkey := rest[..k]))
  }

  /** The query parameters of a pairing URI, in order. */
  function PairingParams(relay: string, secret: string, lightningAddress: string): seq<string> {
    ["relay=" + relay, "secret=" + secret] + (if lightningAddress != "" then ["lud16=" + lightningAddress] else [])
  }

  /** The URI is the key, a `?`, and the parameters joined by `&`. */
  lemma PairingUriShape(identityPubkey: string, relay: string, secret: string, lightningAddress: string)
    ensures PairingUri(identityPubkey, relay, secret, lightningAddress)
         == PairingScheme + (identityPubkey + ['?'] + Join(PairingParams(relay, secret, lightningAddress), '&'))
  {
    var p0, p1 := "relay=" + relay, "secret=" + secret;
    var head := PairingScheme + (identityPubkey + ['?'] + p0 + ['&'] + p1);
    assert PairingScheme + identityPubkey + "?relay=" + relay + "&secret=" + secret == head;
    if lightningAddress != "" {
      var p2 := "lud16=" + lightningAddress;
      JoinThree(p0, p1, p2, '&');
      assert head + "&lud16=" + lightningAddress == head + (['&'] + p2);
    } else {
      assert [p0, p1][1..] == [p1];
    }
  }

  lemma JoinThree(a: string, b: string, c: string, sep: char)
    ensures Join([a, b, c], sep) == a + [sep] + b + [sep] + c
  {
    assert [a, b, c][1..] == [b, c] && [b, c][1..] == [c];
    assert Join([b, c], sep) == b + [sep] + c;
    assert Join([a, b, c], sep) == a + [sep] + (b + [sep] + c);
  }

  /** A client finds the key before the `?` and the parameters after it. */
  lemma PairingUriSplits(identityPubkey: string, params: seq<string>)
    requires '?' !in identityPubkey && |params| > 0
    requires forall i :: 0 <= i < |params| ==> '&' !in params[i]
    ensures var rest := (PairingScheme + (identityPubkey + ['?'] + Join(params, '&')))[|PairingScheme|..];
      && '?' in rest
      && rest[..IndexOf(rest, '?')] == identityPubkey
      && Split(rest[IndexOf(rest, '?') + 1..], '&') == params
  {
    var query := Join(params, '&');
    var rest := (PairingScheme + (identityPubkey + ['?'] + query))[|PairingScheme|..];
    assert rest == identityPubkey + ['?'] + query;
    IndexOfAfter(identityPubkey, '?', query);
    assert rest[|identityPubkey| + 1..] == query;
    SplitJoin(params, '&');
  }

  /** Every part survives the URI when no part contains the separators around it. */
  lemma PairingUriRoundTrip(identityPubkey: string, relay: string, secret: string, lightningAddress: string)
    requires '?' !in identityPubkey && '&' !in relay && '&' !in secret && '&' !in lightningAddress
    ensures ParsePairingUri(PairingUri(identityPubkey, relay, secret, lightningAddress))
         == Some(Pairing(identityPubkey, relay, secret, lightningAddress))
  {
    var params := PairingParams(relay, secret, lightningAddress);
    forall i | 0 <= i < |params|
      ensures '&' !in params[i]
    {
    }
    PairingUriShape(identityPubkey, relay, secret, lightningAddress);
    PairingUriSplits(identityPubkey, params);
    PairingParamsRead(relay, secret, lightningAddress);
  }

  lemma PairingParamsRead(relay: string, secret: string, lightningAddress: string)
    ensures ParsePairingParams(PairingParams(relay, secret, lightningAddress))
         == Some(Pairing("", relay, secret, lightningAddress))
  {
    var params := PairingParams(relay, secret, lightningAddress);
    assert params[0][..6] == "relay=" && params[1][..7] == "secret=";
    if lightningAddress != "" {
      assert params[2][..6] == "lud16=";
    }
  }

  /** Decoded query parameters (`url.Values`): each key keeps its values in order. */
  type Values = map<string, seq<string>>

  function ValuesOf(v: Values, key: string): seq<string> {
    if key in v then v[key] else []
  }

  /** `url.Values.Add`. */
  function AddValue(v: Values, key: string, value: string): Values {
    v[key := ValuesOf(v, key) + [value]]
  }

  /** A parsed `url.URL`: everything but the query, and the decoded query. */
  datatype Url = Url(withoutQuery: string, query: Values)

  /**
   The query the client is sent back with: the relay and the wallet's key
   appended, the lightning address too when the user has one, and every
   other parameter as the client sent it.
   */
  function ReturnToQuery(v: Values, relay: string, identityPubkey: string, lightningAddress: string): (r: Values)
    ensures ValuesOf(r, "relay") == ValuesOf(v, "relay") + [relay]
    ensures ValuesOf(r, "pubkey") == ValuesOf(v, "pubkey") + [identityPubkey]
    ensures ValuesOf(r, "lud16") == ValuesOf(v, "lud16") + (if lightningAddress != "" then [lightningAddress] else [])
    ensures forall k :: k !in {"relay", "pubkey", "lud16"} ==> (k in r <==> k in v) && (k in v ==> r[k] == v[k])
  {
    var q := AddValue(AddValue(v, "relay", relay), "pubkey", identityPubkey);
    if lightningAddress != "" then AddValue(q, "lud16", lightningAddress) else q
  }

  /** The create form, with `ExpiresAt` already through `time.Parse` (zero when it failed). */
  datatype CreateForm = CreateForm(
    name: string,
    pubkey: string,
    maxAmount: string,
    budgetRenewal: string,
    expiresAt: Time,
    returnTo: string)

  /** A key pair from the Nostr library, used when the client supplied no key. */
  datatype KeyPair = KeyPair(secret: string, pubkey: string)

  datatype CreateOutcome =
    | LookupError
    | RedirectHome
    | RedirectApps
    | RedirectReturnTo(target: Url)
    | ShowPairing(pairingUri: string, secret: string, pubkey: string, name: string)

  datatype CreateStep = CreateStep(store: Store, outcome: CreateOutcome)

  /** The app row the transaction appends to the user's apps. */
  function NewApp(s: Store, user: User, name: string, pubkey: string): (a: App)
    ensures forall x :: x in s.apps ==> x.id < a.id
  {
    App(NextKey(s.apps, AppKey), user.id, name, "", pubkey)
  }

  /** The permission row stored alongside it. */
  function NewPermission(s: Store, app: App, maxAmount: int, budgetRenewal: string, expiresAt: Time): (p: AppPermission)
    ensures forall x :: x in s.permissions ==> x.id < p.id
  {
    AppPermission(NextKey(s.permissions, PermissionKey), app.id, PayInvoiceMethod, maxAmount, 0, budgetRenewal, expiresAt)
  }

  /** The committed transaction: the app, and its permission when one is needed. */
  function CreateApp(s: Store, user: User, name: string, pubkey: string,
                     maxAmount: int, budgetRenewal: string, expiresAt: Time): (r: Store)
    ensures r.users == s.users && r.events == s.events && r.payments == s.payments && r.identities == s.identities
    ensures |r.apps| == |s.apps| + 1 && r.apps[..|s.apps|] == s.apps
    ensures var a := r.apps[|s.apps|];
      a.userId == user.id && a.name == name && a.nostrPubkey == pubkey && forall x :: x in s.apps ==> x.id < a.id
    ensures |r.permissions| == |s.permissions| + (if NeedsPermission(maxAmount, expiresAt) then 1 else 0)
    ensures r.permissions[..|s.permissions|] == s.permissions
    ensures NeedsPermission(maxAmount, expiresAt) ==>
      var p := r.permissions[|s.permissions|];
      && p.appId == r.apps[|s.apps|].id && p.maxAmount == maxAmount && p.budgetRenewal == budgetRenewal && p.expiresAt == expiresAt
      && forall x :: x in s.permissions ==> x.id < p.id
  {
    var app := NewApp(s, user, name, pubkey);
    var perms :=
      if NeedsPermission(maxAmount, expiresAt) then
        s.permissions + [NewPermission(s, app, maxAmount, budgetRenewal, expiresAt)]
      else s.permissions;
    s.(apps := s.apps + [app], permissions := perms)
  }

  /** The app's key: the client's own, or the generated one. */
  function ClientKey(form: CreateForm, generated: KeyPair): string {
    if form.pubkey == "" then generated.pubkey else form.pubkey
  }

  /** The secret handed to the client: none when it brought its own key. */
  function ClientSecret(form: CreateForm, generated: KeyPair): string {
    if form.pubkey == "" then generated.secret else ""
  }

  /**
   `AppsCreateHandler`. `generated` is the key pair the handler would create,
   `parseUrl` stands for `url.Parse`, and `txFails` for a failing transaction,
   which rolls back every insert.
   */
  function AppsCreate(cfg: Config, lookup: UserLookup, form: CreateForm, s: Store,
                      generated: KeyPair, parseUrl: string -> Option<Url>, txFails: bool): (r: CreateStep)
    ensures lookup.LookupFailed? ==> r == CreateStep(s, LookupError)
    ensures lookup.NoUser? ==> r == CreateStep(s, RedirectHome)
    ensures lookup.UserFound? && form.pubkey != "" && !ValidPairingPubkey(form.pubkey) ==> r == CreateStep(s, RedirectApps)
    ensures r.store != s <==>
      lookup.UserFound? && !txFails && (form.pubkey == "" || ValidPairingPubkey(form.pubkey))
  {
    match lookup
    case LookupFailed => CreateStep(s, LookupError)
    case NoUser => CreateStep(s, RedirectHome)
    case UserFound(user, _) =>
      var secret, pubkey := ClientSecret(form, generated), ClientKey(form, generated);
      if form.pubkey != "" && !ValidPairingPubkey(pubkey) then CreateStep(s, RedirectApps)
      else
        var maxAmount := AtoiOrZero(form.maxAmount);
        var expiresAt := EndOfDay(form.expiresAt);
        if txFails then CreateStep(s, RedirectApps)
        else
          var s' := CreateApp(s, user, form.name, pubkey, maxAmount, form.budgetRenewal, expiresAt);
          var target := if form.returnTo != "" then parseUrl(form.returnTo) else None;
          match target
          case Some(u) =>
            var q := ReturnToQuery(u.query, cfg.relay, cfg.identityPubkey, user.lightningAddress);
            CreateStep(s', RedirectReturnTo(u.(query := q)))
          case None =>
            CreateStep(s', ShowPairing(PairingUri(cfg.identityPubkey, cfg.relay, secret, user.lightningAddress),
                                       secret, pubkey, form.name))
  }

  // ---------------------------------------------------------------------------
  // Properties of app creation
  // ---------------------------------------------------------------------------

  /** The committed transaction keeps a valid store valid. */
  lemma CreateAppValid(s: Store, user: User, name: string, pubkey: string,
                       maxAmount: int, budgetRenewal: string, expiresAt: Time)
    requires Valid(s) && user in s.users
    ensures Valid(CreateApp(s, user, name, pubkey, maxAmount, budgetRenewal, expiresAt))
  {
    var r := CreateApp(s, user, name, pubkey, maxAmount, budgetRenewal, expiresAt);
    var app := r.apps[|s.apps|];
    assert r.apps == s.apps + [app];
    AppendAscending(s.apps, AppKey, app);
    if NeedsPermission(maxAmount, expiresAt) {
      var p := r.permissions[|s.permissions|];
      assert r.permissions == s.permissions + [p];
      AppendAscending(s.permissions, PermissionKey, p);
    } else {
      assert r.permissions == s.permissions;
    }
    CreateAppLinked(s, r, app);
  }

  /** Adding one app of an existing user, and only permissions for apps, keeps every link. */
  lemma CreateAppLinked(s: Store, r: Store, app: App)
    requires Linked(s) && app.userId in UserIds(s)
    requires r.users == s.users && r.events == s.events && r.payments == s.payments
    requires r.apps == s.apps + [app]
    requires forall p :: p in r.permissions ==> p in s.permissions || p.appId == app.id
    ensures Linked(r)
  {
    assert AppIds(r) == AppIds(s) + {app.id} by {
      assert app in r.apps;
      forall x | x in AppIds(r)
        ensures x in AppIds(s) + {app.id}
      {
        var a :| a in r.apps && a.id == x;
        if a != app {
          assert a in s.apps;
        }
      }
    }
    forall p | p in r.payments
      ensures PaymentLinked(r, p)
    {
      assert PaymentLinked(s, p);
    }
  }

  /**
   The new app has a permission exactly when the form set a positive amount
   or an expiry, and that permission is for paying invoices with the form's
   limits.
   */
  lemma CreatedPermissionIff(s: Store, user: User, name: string, pubkey: string,
                             maxAmount: int, budgetRenewal: string, expiresAt: Time)
    requires Valid(s)
    ensures var r := CreateApp(s, user, name, pubkey, maxAmount, budgetRenewal, expiresAt);
      var app := NewApp(s, user, name, pubkey);
      && (exists p :: p in r.permissions && p.appId == app.id) <==> NeedsPermission(maxAmount, expiresAt)
    ensures var r := CreateApp(s, user, name, pubkey, maxAmount, budgetRenewal, expiresAt);
      var app := NewApp(s, user, name, pubkey);
      forall p :: p in r.permissions && p.appId == app.id ==>
        && p.requestMethod == PayInvoiceMethod && p.maxAmount == maxAmount
        && p.budgetRenewal == budgetRenewal && p.expiresAt == expiresAt
  {
    var app := NewApp(s, user, name, pubkey);
    var r := CreateApp(s, user, name, pubkey, maxAmount, budgetRenewal, expiresAt);
    forall p | p in s.permissions
      ensures p.appId != app.id
    {
      assert p.appId in AppIds(s);
    }
    if NeedsPermission(maxAmount, expiresAt) {
      assert NewPermission(s, app, maxAmount, budgetRenewal, expiresAt) in r.permissions;
    }
  }

  /**
   Creating an app is all or nothing: the store changes exactly when the
   client is handed the connection, and then it holds the app (under the
   client's or the generated key) and, when needed, its permission.
   */
  lemma CreateAllOrNothing(cfg: Config, lookup: UserLookup, form: CreateForm, s: Store,
                           generated: KeyPair, parseUrl: string -> Option<Url>, txFails: bool)
    ensures var r := AppsCreate(cfg, lookup, form, s, generated, parseUrl, txFails);
      (r.outcome.RedirectReturnTo? || r.outcome.ShowPairing?) <==> r.store != s
    ensures var r := AppsCreate(cfg, lookup, form, s, generated, parseUrl, txFails);
      r.store != s ==>
        && lookup.UserFound? && !txFails
        && r.store == CreateApp(s, lookup.user, form.name, ClientKey(form, generated),
                                AtoiOrZero(form.maxAmount), form.budgetRenewal, EndOfDay(form.expiresAt))
  {
    var r := AppsCreate(cfg, lookup, form, s, generated, parseUrl, txFails);
    if lookup.UserFound? && r.store != s {
      assert |r.store.apps| == |s.apps| + 1;
    }
    if r.outcome.RedirectReturnTo? || r.outcome.ShowPairing? {
      assert |r.store.apps| == |s.apps| + 1;
    }
  }

  /** A client key that is not 32 hex-encoded bytes creates nothing and sends the user back to the app list. */
  lemma InvalidKeyRejected(cfg: Config, lookup: UserLookup, form: CreateForm, s: Store,
                           generated: KeyPair, parseUrl: string -> Option<Url>, txFails: bool)
    requires lookup.UserFound? && form.pubkey != ""
    requires !(|form.pubkey| == 64 && AllHex(form.pubkey))
    ensures AppsCreate(cfg, lookup, form, s, generated, parseUrl, txFails) == CreateStep(s, RedirectApps)
  {
    PairingPubkeyIff(form.pubkey);
  }

  /** Creating an app from a user `GetUser` loaded keeps the store valid. */
  lemma AppsCreateValid(cfg: Config, sessionUserId: Option<nat>, dbFails: bool, form: CreateForm, s: Store,
                        generated: KeyPair, parseUrl: string -> Option<Url>, txFails: bool)
    requires Valid(s)
    ensures Valid(AppsCreate(cfg, GetUser(cfg, sessionUserId, s, dbFails), form, s, generated, parseUrl, txFails).store)
  {
    var lookup := GetUser(cfg, sessionUserId, s, dbFails);
    var r := AppsCreate(cfg, lookup, form, s, generated, parseUrl, txFails);
    CreateAllOrNothing(cfg, lookup, form, s, generated, parseUrl, txFails);
    if r.store != s {
      CreateAppValid(s, lookup.user, form.name, ClientKey(form, generated),
                     AtoiOrZero(form.maxAmount), form.budgetRenewal, EndOfDay(form.expiresAt));
    }
  }

  /**
   Either way the connection is handed over, the client learns the wallet's
   relay and identity key, and with the pairing URI also the secret that
   matches the stored key: the generated one, or none for a client key.
   */
  lemma HandoffCarriesWallet(cfg: Config, lookup: UserLookup, form: CreateForm, s: Store,
                             generated: KeyPair, parseUrl: string -> Option<Url>, txFails: bool)
    requires '?' !in cfg.identityPubkey && '&' !in cfg.relay && '&' !in generated.secret
    requires lookup.UserFound? ==> '&' !in lookup.user.lightningAddress
    ensures var r := AppsCreate(cfg, lookup, form, s, generated, parseUrl, txFails);
      r.outcome.RedirectReturnTo? ==>
        && |ValuesOf(r.outcome.target.query, "relay")| > 0
        && ValuesOf(r.outcome.target.query, "relay")[|ValuesOf(r.outcome.target.query, "relay")| - 1] == cfg.relay
        && |ValuesOf(r.outcome.target.query, "pubkey")| > 0
        && ValuesOf(r.outcome.target.query, "pubkey")[|ValuesOf(r.outcome.target.query, "pubkey")| - 1] == cfg.identityPubkey
    ensures var r := AppsCreate(cfg, lookup, form, s, generated, parseUrl, txFails);
      r.outcome.ShowPairing? ==>
        && lookup.UserFound?
        && ParsePairingUri(r.outcome.pairingUri)
           == Some(Pairing(cfg.identityPubkey, cfg.relay, r.outcome.secret, lookup.user.lightningAddress))
        && r.outcome.secret == (if form.pubkey == "" then generated.secret else "")
        && r.outcome.pubkey == r.store.apps[|r.store.apps| - 1].nostrPubkey
  {
    var r := AppsCreate(cfg, lookup, form, s, generated, parseUrl, txFails);
    if r.outcome.ShowPairing? {
      PairingUriRoundTrip(cfg.identityPubkey, cfg.relay, r.outcome.secret, lookup.user.lightningAddress);
    }
  }
}

/** The budget text on sample durations. */
module BudgetExamples {
  import opened Text
  import opened Handlers

  /** The decimal spellings the samples use. */
  lemma SampleNumbers()
    ensures IntToString(1) == "1" && IntToString(2) == "2" && IntToString(3) == "3"
    ensures IntToString(15) == "15" && IntToString(30) == "30"
    ensures IntToString(-1) == "-1" && IntToString(-30) == "-30"
  {
    assert NatToString(1) == "1" && NatToString(2) == "2" && NatToString(3) == "3";
    assert NatToString(15) == "15" && NatToString(30) == "30";
  }

  /** The words of each kind of text, once the numbers are spelled. */
  lemma RenderWords(h: int, m: int, a: string, b: string)
    requires IntToString(h) == a && IntToString(m) == b
    ensures RenderBudget(HoursMinutes(h, m)) == Join([a, "hours", "and", b, "minutes"], ' ')
    ensures RenderBudget(Days(h)) == Join([a, "days"], ' ')
    ensures RenderBudget(MonthsDays(h, 0)) == Join([a, "months"], ' ')
    ensures m > 0 ==> RenderBudget(MonthsDays(h, m)) == Join([a, "months", b, "days"], ' ')
  {
  }

  /** The hours-and-minutes words joined. */
  lemma HoursMinutesJoined(a: string, b: string)
    ensures Join([a, "hours", "and", b, "minutes"], ' ') == a + " hours and " + b + " minutes"
  {
    var w := [a, "hours", "and", b, "minutes"];
    assert w[1..] == ["hours", "and", b, "minutes"];
    assert w[1..][1..] == ["and", b, "minutes"];
    assert w[1..][1..][1..] == [b, "minutes"];
    assert Join([b, "minutes"], ' ') == b + " minutes";
    assert Join(["and", b, "minutes"], ' ') == "and " + b + " minutes";
    assert Join(["hours", "and", b, "minutes"], ' ') == "hours and " + b + " minutes";
  }

  /** The sample texts joined, one per lemma. */
  lemma HoursJoined()
    ensures Join(["1", "hours", "and", "30", "minutes"], ' ') == "1 hours and 30 minutes"
  {
    HoursMinutesJoined("1", "30");
  }

  lemma OverdueJoined()
    ensures Join(["-1", "hours", "and", "-30", "minutes"], ' ') == "-1 hours and -30 minutes"
  {
    HoursMinutesJoined("-1", "-30");
  }

  lemma DaysJoined()
    ensures Join(["3", "days"], ' ') == "3 days"
    ensures Join(["2", "months"], ' ') == "2 months"
  {
  }

  lemma MonthsDaysJoined()
    ensures Join(["1", "months", "15", "days"], ' ') == "1 months 15 days"
  {
  }

  /** The figures of the day and month samples. */
  lemma DaysFigures()
    ensures BudgetDisplayOf(EndsIn(3 * Day + Hour)) == Days(3)
    ensures BudgetDisplayOf(EndsIn(45 * Day)) == MonthsDays(1, 15)
    ensures BudgetDisplayOf(EndsIn(60 * Day)) == MonthsDays(2, 0)
  {
  }

  /** Ninety minutes and a bit before the end. */
  lemma BudgetHoursExample()
    ensures EndOfBudgetString(EndsIn(90 * Minute + 59_999_999_999)) == "1 hours and 30 minutes"
  {
    var d := 90 * Minute + 59_999_999_999;
    assert BudgetDisplayOf(EndsIn(d)) == HoursMinutes(1, 30) by {
      assert TruncDiv(d, Minute) == 90 && TruncDiv(d, Hour) == 1;
      assert TruncRem(90, 60) == 30;
    }
    SampleNumbers();
    RenderWords(1, 30, "1", "30");
    HoursJoined();
  }

  /** Ninety minutes after the end. */
  lemma BudgetOverdueExample()
    ensures EndOfBudgetString(EndsIn(-90 * Minute)) == "-1 hours and -30 minutes"
  {
    assert BudgetDisplayOf(EndsIn(-90 * Minute)) == HoursMinutes(-1, -30) by {
      assert TruncDiv(-90 * Minute, Minute) == -90 && TruncDiv(-90 * Minute, Hour) == -1;
      assert TruncRem(-90, 60) == -30;
    }
    SampleNumbers();
    RenderWords(-1, -30, "-1", "-30");
    OverdueJoined();
  }

  /** Days under a month, and months with and without leftover days. */
  lemma BudgetDaysExample()
    ensures EndOfBudgetString(EndsIn(3 * Day + Hour)) == "3 days"
    ensures EndOfBudgetString(EndsIn(45 * Day)) == "1 months 15 days"
    ensures EndOfBudgetString(EndsIn(60 * Day)) == "2 months"
  {
    DaysFigures();
    SampleNumbers();
    RenderWords(3, 0, "3", "0");
    RenderWords(1, 15, "1", "15");
    RenderWords(2, 0, "2", "0");
    DaysJoined();
    MonthsDaysJoined();
  }
}
