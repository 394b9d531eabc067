/**
 The decisions the service makes when it starts: which database driver a
 URI selects and the connection limit that follows, where the wallet's
 Nostr secret key comes from, and the relay subscription that selects the
 requests the service answers.
 */
module Startup {
  import opened Wrappers
  import opened Text
  import opened Models

  // ---------------------------------------------------------------------------
  // Database driver
  // ---------------------------------------------------------------------------

  datatype Driver = Postgres | Sqlite

  /** The URI schemes that select PostgreSQL; anything else is a SQLite file name. */
  const PostgresSchemes: seq<string> := ["postgres://", "postgresql://", "unix://"]

  /** PostgreSQL exactly for a URI that starts with one of its schemes, SQLite otherwise. */
  function ChooseDriver(uri: string): (d: Driver)
    ensures d == Postgres <==> exists p :: p in PostgresSchemes && HasPrefix(uri, p)
  {
    if HasPrefix(uri, "postgres://") then
      assert PostgresSchemes[0] == "postgres://";
      Postgres
    else if HasPrefix(uri, "postgresql://") then
      assert PostgresSchemes[1] == "postgresql://";
      Postgres
    else if HasPrefix(uri, "unix://") then
      assert PostgresSchemes[2] == "unix://";
      Postgres
    else
      Sqlite
  }

  /** The configuration after the database is opened: SQLite allows one connection. */
  function ConfigureDatabase(cfg: Config): (r: (Driver, Config))
    ensures r.1.databaseMaxConns == (if r.0 == Sqlite then 1 else cfg.databaseMaxConns)
    ensures r.1.(databaseMaxConns := cfg.databaseMaxConns) == cfg
  {
    var driver := ChooseDriver(cfg.databaseUri);
    (driver, if driver == Sqlite then cfg.(databaseMaxConns := 1) else cfg)
  }

  /** The scheme test is case-sensitive, and a bare file name is SQLite. */
  lemma DriverExamples()
    ensures ChooseDriver("postgresql://localhost/nwc") == Postgres
    ensures ChooseDriver("unix:///var/run/postgresql") == Postgres
    ensures ChooseDriver("nostr-wallet-connect.db") == Sqlite
    ensures ChooseDriver("POSTGRES://localhost") == Sqlite
    ensures ChooseDriver("") == Sqlite
  {
    assert HasPrefix("postgresql://localhost/nwc", "postgresql://");
    assert HasPrefix("unix:///var/run/postgresql", "unix://");
    var file, upper := "nostr-wallet-connect.db", "POSTGRES://localhost";
    assert file[..11][0] == 'n' && file[..13][0] == 'n' && file[..7][0] == 'n';
    assert upper[..11][0] == 'P' && upper[..13][0] == 'P' && upper[..7][0] == 'P';
  }

  // ---------------------------------------------------------------------------
  // The wallet's secret key
  // ---------------------------------------------------------------------------

  datatype StartupError =
    | SecretKeyRequired     // the Alby backend needs the key configured
    | IdentityLookupFailed
    | IdentitySaveFailed
    | InvalidSecretKey      // no public key derives from the key

  /** The configuration with the key and its public key filled in, and the store. */
  datatype Started = Started(cfg: Config, store: Store)

  /** gorm's `FirstOrInit`: the first identity row, or a fresh unsaved one. */
  function FirstOrInit(identities: seq<Identity>): (i: Identity)
    ensures |identities| > 0 ==> i == identities[0]
    ensures |identities| == 0 ==> i == Identity(0, "")
  {
    if |identities| > 0 then identities[0] else Identity(0, "")
  }

  /** gorm's `Save`: an unsaved row is inserted under a new key, a saved one replaced. */
  function SaveIdentity(identities: seq<Identity>, i: Identity): (r: seq<Identity>)
    ensures i.id == 0 ==> |r| == |identities| + 1 && r[..|identities|] == identities
                          && r[|identities|] == i.(id := NextKey(identities, IdentityKey))
    ensures i.id != 0 ==> |r| == |identities|
    ensures i.id != 0 ==> forall k :: 0 <= k < |r| ==> r[k] == (if identities[k].id == i.id then i else identities[k])
  {
    if i.id == 0 then identities + [i.(id := NextKey(identities, IdentityKey))]
    else seq(|identities|, k requires 0 <= k < |identities| => if identities[k].id == i.id then i else identities[k])
  }

  /** What the Nostr library produces: 32 random bytes in hex. */
  predicate IsGeneratedKey(key: string) {
    |key| == 64 && AllLowerHex(key)
  }

  /**
   The key the service signs with: the configured one; otherwise, except with
   the Alby backend, the one stored in the first identity row, generating and
   saving `generated` when there is none. `pubkeyOf` derives the public key
   and fails on a malformed secret.
   */
  function ResolveIdentity(cfg: Config, s: Store, generated: string, pubkeyOf: string -> Option<string>,
                           lookupFails: bool, saveFails: bool): (r: Result<Started, StartupError>)
    requires IsGeneratedKey(generated)
    ensures r.Success? ==> r.value.cfg.nostrSecretKey != ""
    ensures r.Success? ==> Some(r.value.cfg.identityPubkey) == pubkeyOf(r.value.cfg.nostrSecretKey)
    ensures r.Success? ==> r.value.cfg.(nostrSecretKey := cfg.nostrSecretKey, identityPubkey := cfg.identityPubkey) == cfg
    ensures r.Success? && cfg.nostrSecretKey != "" ==> r.value == Started(r.value.cfg, s) && r.value.cfg.nostrSecretKey == cfg.nostrSecretKey
    ensures cfg.nostrSecretKey == "" && cfg.lnBackendType == AlbyBackendType ==> r == Failure(SecretKeyRequired)
    ensures cfg.nostrSecretKey != "" ==> (r.Success? <==> pubkeyOf(cfg.nostrSecretKey).Some?)
    ensures cfg.nostrSecretKey == "" && cfg.lnBackendType != AlbyBackendType && lookupFails ==> r == Failure(IdentityLookupFailed)
    ensures cfg.nostrSecretKey == "" && r.Success? && |s.identities| > 0 && s.identities[0].privkey != "" ==>
      r.value.cfg.nostrSecretKey == s.identities[0].privkey && r.value.store == s
    ensures (cfg.nostrSecretKey == "" && cfg.lnBackendType != AlbyBackendType && !lookupFails
             && FirstOrInit(s.identities).privkey == "" && saveFails) ==> r == Failure(IdentitySaveFailed)
    ensures cfg.nostrSecretKey == "" && r.Success? && FirstOrInit(s.identities).privkey == "" ==>
      && r.value.cfg.nostrSecretKey == generated
      && r.value.store == s.(identities := SaveIdentity(s.identities, FirstOrInit(s.identities).(privkey := generated)))
      && exists i :: i in r.value.store.identities && i.privkey == generated
  {
    var keyAndStore: Result<(string, Store), StartupError> :=
      if cfg.nostrSecretKey != "" then Success((cfg.nostrSecretKey, s))
      else if cfg.lnBackendType == AlbyBackendType then Failure(SecretKeyRequired)
      else if lookupFails then Failure(IdentityLookupFailed)
      else
        var identity := FirstOrInit(s.identities);
        if identity.privkey != "" then Success((identity.privkey, s))
        else if saveFails then Failure(IdentitySaveFailed)
        else
          var saved := identity.(privkey := generated);
          Success((generated, s.(identities := SaveIdentity(s.identities, saved))));
    match keyAndStore
    case Failure(e) => Failure(e)
    case Success((key, s')) =>
      match pubkeyOf(key)
      case None => Failure(InvalidSecretKey)
      case Some(pk) => Success(Started(cfg.(nostrSecretKey := key, identityPubkey := pk), s'))
  }

  /** Starting keeps a valid store valid, and only the identities table may change. */
  lemma ResolveIdentityValid(cfg: Config, s: Store, generated: string, pubkeyOf: string -> Option<string>,
                             lookupFails: bool, saveFails: bool)
    requires Valid(s) && IsGeneratedKey(generated)
    ensures var r := ResolveIdentity(cfg, s, generated, pubkeyOf, lookupFails, saveFails);
      r.Success? ==> Valid(r.value.store) && r.value.store.(identities := s.identities) == s
  {
    var r := ResolveIdentity(cfg, s, generated, pubkeyOf, lookupFails, saveFails);
    var identity := FirstOrInit(s.identities);
    if r.Success? && cfg.nostrSecretKey == "" && identity.privkey == "" {
      SaveIdentityValid(s, identity.(privkey := generated));
    }
  }

  /** Saving the identity row keeps the store invariant. */
  lemma SaveIdentityValid(s: Store, identity: Identity)
    requires Valid(s)
    ensures Valid(s.(identities := SaveIdentity(s.identities, identity)))
  {
    var rows := SaveIdentity(s.identities, identity);
    if identity.id == 0 {
      AppendAscending(s.identities, IdentityKey, identity.(id := NextKey(s.identities, IdentityKey)));
    } else {
      forall i, j | 0 <= i < j < |rows|
        ensures IdentityKey(rows[i]) < IdentityKey(rows[j])
      {
        assert IdentityKey(rows[i]) == IdentityKey(s.identities[i]);
        assert IdentityKey(rows[j]) == IdentityKey(s.identities[j]);
      }
    }
  }

  /**
   Without a configured key the generated one is kept: a second start on the
   saved store finds the same key and changes nothing, whatever key the
   library would generate then. Stored rows have non-zero keys, as the
   database's auto-increment starts at 1.
   */
  lemma KeySurvivesRestart(cfg: Config, s: Store, generated: string, again: string,
                           pubkeyOf: string -> Option<string>, saveFails: bool)
    requires cfg.nostrSecretKey == "" && IsGeneratedKey(generated) && IsGeneratedKey(again)
    requires forall i :: i in s.identities ==> i.id > 0
    requires ResolveIdentity(cfg, s, generated, pubkeyOf, false, saveFails).Success?
    ensures var first := ResolveIdentity(cfg, s, generated, pubkeyOf, false, saveFails).value;
      var second := ResolveIdentity(cfg, first.store, again, pubkeyOf, false, saveFails);
      second == Success(first)
  {
    var first := ResolveIdentity(cfg, s, generated, pubkeyOf, false, saveFails).value;
    var identity := FirstOrInit(s.identities);
    if identity.privkey == "" {
      var rows := SaveIdentity(s.identities, identity.(privkey := generated));
      assert first.store.identities == rows;
      assert FirstOrInit(rows).privkey == generated;
    }
  }

  // ---------------------------------------------------------------------------
  // The relay subscription
  // ---------------------------------------------------------------------------

  /** A NIP-01 subscription filter; an absent author list matches every author. */
  datatype Filter = Filter(tags: map<string, seq<string>>, kinds: seq<int>, authors: Option<seq<string>>)

  /**
   NIP-01 matching: the kind is listed, the author is listed when authors
   are given, and for each tag filter the event carries such a tag with a
   listed value.
   */
  predicate FilterMatches(f: Filter, e: Event) {
    && e.kind in f.kinds
    && (f.authors.Some? ==> e.pubkey in f.authors.value)
    && forall name :: name in f.tags ==> HasTag(e, name, f.tags[name])
  }

  predicate HasTag(e: Event, name: string, values: seq<string>) {
    exists t :: t in e.tags && |t| >= 2 && t[0] == name && t[1] in values
  }

  /** `createFilters`: requests addressed to the wallet, from the configured client if there is one. */
  function CreateFilters(cfg: Config): (fs: seq<Filter>)
    ensures |fs| == 1
    ensures fs[0].kinds == [RequestKind] && fs[0].tags == map["p" := [cfg.identityPubkey]]
    ensures fs[0].authors.Some? <==> cfg.clientPubkey != ""
    ensures fs[0].authors.Some? ==> fs[0].authors.value == [cfg.clientPubkey]
  {
    var f := Filter(map["p" := [cfg.identityPubkey]], [RequestKind], None);
    [if cfg.clientPubkey != "" then f.(authors := Some([cfg.clientPubkey])) else f]
  }

  /**
   The subscription delivers exactly the NIP-47 requests that tag the
   wallet's identity key, and, when a client key is configured, only those
   that client signed.
   */
  lemma SubscriptionSelects(cfg: Config, e: Event)
    ensures (exists f :: f in CreateFilters(cfg) && FilterMatches(f, e))
        <==> && e.kind == RequestKind
             && HasTag(e, "p", [cfg.identityPubkey])
             && (cfg.clientPubkey == "" || e.pubkey == cfg.clientPubkey)
  {
    var f := CreateFilters(cfg)[0];
    assert f in CreateFilters(cfg);
    assert f.tags.Keys == {"p"};
  }
}
