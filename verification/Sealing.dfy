// Envelope encryption and the vault that holds the only plaintext data key.
//
// Encryption is symbolic: a sealed box opens exactly with the key and the
// associated data it was sealed with. Salts and nonces are inputs.
module Sealing {
  import opened Base

  type Bytes = seq<byte>

  datatype Sealed<K, T> = Sealed(key: K, nonce: nat, plain: T, aad: string)

  type Ciphertext = Sealed<Bytes, string>

  // scrypt(master, salt), taken to be injective.
  datatype WrappingKey = Derived(master: string, salt: nat)

  datatype Envelope = Envelope(salt: nat, wrapped: Sealed<WrappingKey, Bytes>)

  const DEK_AAD := "ssm:dek:v1"
  const MIN_MASTER: nat := 16

  function Open<K(==), T>(key: K, box: Sealed<K, T>, aad: string): Option<T> {
    if box.key == key && box.aad == aad then Some(box.plain) else None
  }

  function Wrap(master: string, dek: Bytes, salt: nat, nonce: nat): Option<Envelope> {
    if Utf8Len(master) < MIN_MASTER then None
    else Some(Envelope(salt, Sealed(Derived(master, salt), nonce, dek, DEK_AAD)))
  }

  function Unwrap(master: string, en: Envelope): Option<Bytes> {
    Open(Derived(master, en.salt), en.wrapped, DEK_AAD)
  }

  function Rewrap(current: string, next: string, en: Envelope, salt: nat, nonce: nat): Option<Envelope> {
    match Unwrap(current, en)
    case None => None
    case Some(dek) => Wrap(next, dek, salt, nonce)
  }

  // An empty key is a locked vault.
  function Encrypt(key: Bytes, path: string, value: string, nonce: nat): Result<Ciphertext, Error> {
    if key == [] then Err(Locked) else Ok(Sealed(key, nonce, value, path))
  }

  function Decrypt(key: Bytes, path: string, box: Option<Ciphertext>): Result<string, Error> {
    if key == [] then Err(Locked)
    else if box.None? then Err(Internal)
    else
      match Open(key, box.value, path)
      case None => Err(Internal)
      case Some(value) => Ok(value)
  }

  // The envelope en hides dek under master and under no other passphrase.
  ghost predicate Hides(en: Envelope, dek: Bytes, master: string) {
    && Unwrap(master, en) == Some(dek)
    && forall m :: Unwrap(m, en).Some? ==> m == master
  }

  lemma WrapHides(master: string, dek: Bytes, salt: nat, nonce: nat)
    ensures var en := Wrap(master, dek, salt, nonce);
            (Utf8Len(master) >= 16 <==> en.Some?) && (en.Some? ==> Hides(en.value, dek, master))
  {
  }

  // A ciphertext opens under the key and the path it was made with, to what was
  // put in, and neither under another key nor in the place of another record.
  lemma CiphertextIsBound(key: Bytes, path: string, value: string, nonce: nat, key': Bytes, path': string)
    ensures Encrypt(key, path, value, nonce).Ok? <==> key != []
    ensures key != [] ==>
              var shown := Decrypt(key', path', Some(Encrypt(key, path, value, nonce).value));
              if key' == key && path' == path then shown == Ok(value) else shown.Err?
  {
  }

  // Rotation keeps the data key and retires the old passphrase. It fails
  // exactly on a wrong old passphrase or a short new one.
  lemma RewrapKeepsKey(current: string, next: string, en: Envelope, dek: Bytes, master: string, salt: nat, nonce: nat)
    requires Hides(en, dek, master)
    ensures var r := Rewrap(current, next, en, salt, nonce);
            && (r.Some? <==> current == master && Utf8Len(next) >= 16)
            && (r.Some? ==> Hides(r.value, dek, next))
            && (r.Some? && next != current ==> Unwrap(current, r.value).None?)
  {
    if Unwrap(current, en).Some? {
      assert current == master;
    }
  }

  method Wipe(b: array<byte>)
    modifies b
    ensures forall i :: 0 <= i < b.Length ==> b[i] == 0
  {
    for i := 0 to b.Length
      invariant forall j :: 0 <= j < i ==> b[j] == 0
    {
      b[i] := 0;
    }
  }

  class Vault {
    var key: array<byte>

    function Key(): Bytes
      reads this, key
    {
      key[..]
    }

    constructor ()
      ensures Key() == [] && fresh(key)
    {
      key := new byte[0];
    }

    // The old key is zeroed in place before it is dropped.
    method Lock()
      modifies this, key
      ensures Key() == [] && fresh(key)
      ensures forall b :: b in old(key)[..] ==> b == 0
    {
      Wipe(key);
      key := new byte[0];
    }

    method Unlock(master: string, en: Envelope) returns (ok: bool)
      modifies this, key
      ensures ok == Unwrap(master, en).Some?
      ensures Key() == if ok then Unwrap(master, en).value else old(Key())
      ensures if ok then fresh(key) else key == old(key)
      ensures ok ==> forall b :: b in old(key)[..] ==> b == 0
    {
      var k := Unwrap(master, en);
      ok := k.Some?;
      if ok {
        var fresh' := new byte[|k.value|](i requires 0 <= i < |k.value| => k.value[i]);
        Wipe(key);
        key := fresh';
      }
    }
  }
}
