/** x/identity: the alias registry that binds a passkey to a wallet at most once. */
module Identity {
  import opened Numbers
  import opened Wrappers
  import opened Externals
  import Decimal
  import Hex

  datatype Alias = Alias(passkey: string, wallet: string, migrated: bool, migratedAt: uint64)
  type Aliases = map<string, Alias>

  datatype MsgMigrate = MsgMigrate(signer: string, passkey: string, signature: string, nonce: uint64)

  datatype Error = InvalidMessage | InvalidWallet | InvalidPasskey | InvalidSignature | AlreadyMigrated

  function MigrationBody(passkey: string, wallet: string, nonce: uint64): string {
    "wevibe.migrate_identity.v1\npasskey_pubkey:" + passkey + "\nwallet:" + wallet + "\nnonce:" + Decimal.Format(nonce)
  }

  predicate HexOfLength(s: string, n: nat) {
    Hex.Decode(s).Some? && |Hex.Decode(s).value| == n
  }

  function Migrate(env: Env, aliases: Aliases, msg: MsgMigrate, height: uint64): Result<Aliases, Error> {
    var body := MigrationBody(msg.passkey, msg.signer, msg.nonce);
    :- Need(msg.signer != "", InvalidMessage);
    :- Need(HexOfLength(msg.passkey, PUBLIC_KEY_SIZE), InvalidPasskey);
    :- Need(HexOfLength(msg.signature, SIGNATURE_SIZE), InvalidSignature);
    :- Need(env.validAddress(msg.signer), InvalidWallet);
    :- Need(env.verify(Hex.Decode(msg.passkey).value, body, Hex.Decode(msg.signature).value), InvalidSignature);
    :- Need(!(msg.passkey in aliases && aliases[msg.passkey].migrated), AlreadyMigrated);
    Success(aliases[msg.passkey := Alias(msg.passkey, msg.signer, true, height)])
  }

  /** A migrated alias and its wallet are permanent. */
  ghost predicate Extends(old_: Aliases, new_: Aliases) {
    forall p :: p in old_ && old_[p].migrated ==> p in new_ && new_[p] == old_[p]
  }

  lemma MigrateExtends(env: Env, aliases: Aliases, msg: MsgMigrate, height: uint64)
    requires Migrate(env, aliases, msg, height).Success?
    ensures Extends(aliases, Migrate(env, aliases, msg, height).value)
  {
  }

  // ----- who may bind a passkey -----

  /**
   * The message binds the passkey p to the alias: the key itself signed the text that names the wallet.
   */
  ghost predicate Binds(env: Env, msg: MsgMigrate, height: uint64, p: string, alias: Alias) {
    && p == msg.passkey && alias == Alias(p, msg.signer, true, height)
    && msg.signer != "" && env.validAddress(msg.signer)
    && Hex.Decode(p).Some? && |Hex.Decode(p).value| == 32
    && Hex.Decode(msg.signature).Some? && |Hex.Decode(msg.signature).value| == 64
    && env.verify(Hex.Decode(p).value,
                  "wevibe.migrate_identity.v1\npasskey_pubkey:" + p + "\nwallet:" + alias.wallet + "\nnonce:" + Decimal.Format(msg.nonce),
                  Hex.Decode(msg.signature).value)
  }

  /** A migration succeeds exactly with the key's signature for a key that has not migrated, and changes no other alias. */
  lemma MigrateBindsIff(env: Env, aliases: Aliases, msg: MsgMigrate, height: uint64)
    ensures var alias := Alias(msg.passkey, msg.signer, true, height);
            && (Migrate(env, aliases, msg, height).Success? <==>
                Binds(env, msg, height, msg.passkey, alias) && !(msg.passkey in aliases && aliases[msg.passkey].migrated))
            && (Migrate(env, aliases, msg, height).Success? ==>
                Migrate(env, aliases, msg, height).value == aliases[msg.passkey := alias])
  {
    hide Hex.Decode, Decimal.Format;
  }

  // ----- aliases and keys -----

  /** Two passkey texts are spellings of one public key. */
  predicate SameKey(p: string, q: string) {
    Hex.Decode(p).Some? && Hex.Decode(p) == Hex.Decode(q)
  }

  /** All migrated spellings of a key have one wallet. */
  ghost predicate OneWalletPerKey(aliases: Aliases) {
    forall p, q :: p in aliases && q in aliases && aliases[p].migrated && aliases[q].migrated && SameKey(p, q) ==>
      aliases[p].wallet == aliases[q].wallet
  }

  /** An alias is looked up by its text: a key keeps one wallet exactly when no other spelling of it has another one. */
  lemma MigrateKeepsOneWalletIff(env: Env, aliases: Aliases, msg: MsgMigrate, height: uint64)
    requires OneWalletPerKey(aliases) && Migrate(env, aliases, msg, height).Success?
    ensures OneWalletPerKey(Migrate(env, aliases, msg, height).value) <==>
            forall q :: q in aliases && aliases[q].migrated && SameKey(msg.passkey, q) ==> aliases[q].wallet == msg.signer
  {
    hide Hex.Decode, MigrationBody;
    var after := Migrate(env, aliases, msg, height).value;
    assert after == aliases[msg.passkey := Alias(msg.passkey, msg.signer, true, height)];
    assert !(msg.passkey in aliases && aliases[msg.passkey].migrated);
    if OneWalletPerKey(after) {
      forall q | q in aliases && aliases[q].migrated && SameKey(msg.passkey, q) ensures aliases[q].wallet == msg.signer {
        assert after[q].wallet == after[msg.passkey].wallet;
      }
    }
  }

  /** Two spellings of one key, each with a valid message, migrate to two wallets. */
  lemma TwoSpellingsTwoWallets(env: Env, first: MsgMigrate, second: MsgMigrate, height: uint64)
    requires first.passkey != second.passkey && Hex.Lower(first.passkey) == Hex.Lower(second.passkey)
    requires first.signer != second.signer
    requires Migrate(env, map[], first, height).Success? && Migrate(env, map[], second, height).Success?
    ensures var aliases := Migrate(env, map[], first, height).value;
            && Migrate(env, aliases, second, height).Success?
            && !OneWalletPerKey(Migrate(env, aliases, second, height).value)
  {
    hide Hex.Decode, MigrationBody;
    Hex.SameBytesIff(first.passkey, second.passkey);
    var aliases := Migrate(env, map[], first, height).value;
    assert aliases[first.passkey].wallet == first.signer;
    assert SameKey(second.passkey, first.passkey);
    MigrateKeepsOneWalletIff(env, aliases, second, height);
  }

  class Keeper {
    var aliases: Aliases

    constructor ()
      ensures aliases == map[]
    {
      aliases := map[];
    }

    /** The wallet of a passkey, whether it has migrated, and whether it is known at all. */
    method ResolveIdentity(passkey: string) returns (wallet: string, migrated: bool, found: bool)
      ensures found == (passkey in aliases)
      ensures migrated == (passkey in aliases && aliases[passkey].migrated)
      ensures wallet == if passkey in aliases then aliases[passkey].wallet else ""
    {
      if passkey !in aliases {
        return "", false, false;
      }
      return aliases[passkey].wallet, aliases[passkey].migrated, true;
    }

    method MigrateIdentity(env: Env, msg: MsgMigrate, height: uint64) returns (r: Result<(), Error>)
      modifies this
      ensures Migrate(env, old(aliases), msg, height) ==
              if r.Success? then Success(aliases) else Failure(r.error)
      ensures r.Failure? ==> aliases == old(aliases)
      ensures Extends(old(aliases), aliases)
    {
      if msg.signer == "" {
        return Failure(InvalidMessage);
      }
      var passkey := Hex.Decode(msg.passkey);
      if passkey.None? || |passkey.value| != PUBLIC_KEY_SIZE {
        return Failure(InvalidPasskey);
      }
      var signature := Hex.Decode(msg.signature);
      if signature.None? || |signature.value| != SIGNATURE_SIZE {
        return Failure(InvalidSignature);
      }
      if !env.validAddress(msg.signer) {
        return Failure(InvalidWallet);
      }
      var body := MigrationBody(msg.passkey, msg.signer, msg.nonce);
      if !env.verify(passkey.value, body, signature.value) {
        return Failure(InvalidSignature);
      }
      var _, migrated, _ := ResolveIdentity(msg.passkey);
      if migrated {
        return Failure(AlreadyMigrated);
      }
      aliases := aliases[msg.passkey := Alias(msg.passkey, msg.signer, true, height)];
      return Success(());
    }
  }
}
