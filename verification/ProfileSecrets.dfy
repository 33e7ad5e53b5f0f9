/** Secrets of a VPN profile: encrypted at rest, masked on the way out, kept
    when the mask comes back (apps/snx-edge-server/src/db_secrets.rs,
    api/profiles.rs, db.rs). The cipher is a pair of functions. */
module ProfileSecrets {
  import opened Text

  datatype Json =
    | Null
    | Bool(b: bool)
    | Num(n: int)
    | Str(s: string)
    | Arr(items: seq<Json>)
    | Obj(fields: map<string, Json>)

  type Fields = map<string, Json>

  const PASSWORD: string := "password"
  const CERT_PASSWORD: string := "cert_password"
  const MARKER: string := "__enc_v"
  const ENC: string := "__enc"
  const NONCE: string := "__nonce"
  const MASK: string := "***"

  function SecretFields(): (names: seq<string>)
    ensures |names| == 2
  {
    [PASSWORD, CERT_PASSWORD]
  }

  lemma NamesDiffer()
    ensures PASSWORD != CERT_PASSWORD && ENC != NONCE
    ensures MARKER !in SecretFields()
    ensures MASK != ""
  {
    assert PASSWORD[0] == 'p' && CERT_PASSWORD[0] == 'c' && MARKER[0] == '_';
    assert |ENC| != |NONCE|;
  }

  /** Sealing with a key, and opening: `open` covers base64, the nonce length,
      authentication and UTF-8. `nonce` says which texts are drawn as nonces. */
  datatype Cipher = Cipher(nonce: string -> bool, seal: (string, string) -> string, open: (string, string) -> Option<string>)

  ghost predicate Lawful(c: Cipher) {
    forall plain, nonce :: c.nonce(nonce) ==> c.open(c.seal(plain, nonce), nonce) == Some(plain)
  }

  lemma SecretNames(i: nat)
    requires i < |SecretFields()|
    ensures SecretFields()[i] !in SecretFields()[..i]
    ensures SecretFields()[..i + 1] == SecretFields()[..i] + [SecretFields()[i]]
    ensures SecretFields()[..0] == [] && SecretFields()[..|SecretFields()|] == SecretFields()
  {
    NamesDiffer();
  }

  /** `g` on the named fields that exist. */
  function Through(fields: Fields, names: seq<string>, g: (string, Json) -> Json): Fields {
    map k | k in fields :: if k in names then g(k, fields[k]) else fields[k]
  }

  lemma ThroughOneMore(fields: Fields, names: seq<string>, f: string, g: (string, Json) -> Json)
    requires f !in names
    ensures Through(fields, names + [f], g) ==
      if f in fields then Through(fields, names, g)[f := g(f, fields[f])] else Through(fields, names, g)
  {
  }

  // --- Encryption ---

  predicate LooksSealed(x: Json) {
    x.Obj? && ENC in x.fields
  }

  predicate IsSecret(x: Json) {
    x.Str? && x.s != ""
  }

  function EncryptValue(c: Cipher, nonce: string, x: Json): Json {
    if IsSecret(x) then Obj(map[ENC := Str(c.seal(x.s, nonce)), NONCE := Str(nonce)]) else x
  }

  /** Some field is encrypted already, or is now. */
  predicate Touches(fields: Fields, names: seq<string>) {
    exists i :: 0 <= i < |names| && names[i] in fields && (LooksSealed(fields[names[i]]) || IsSecret(fields[names[i]]))
  }

  function Encrypt(c: Cipher, nonces: string -> string, v: Json): Json {
    if !v.Obj? then v
    else
      var fields := Through(v.fields, SecretFields(), (k, x) => EncryptValue(c, nonces(k), x));
      Obj(if Touches(v.fields, SecretFields()) then fields[MARKER := Num(1)] else fields)
  }

  // --- Decryption ---

  /** Both halves of the sealed form are there. */
  predicate IsSealed(x: Json) {
    && x.Obj? && ENC in x.fields && x.fields[ENC].Str?
    && NONCE in x.fields && x.fields[NONCE].Str?
  }

  function Opened(c: Cipher, x: Json): Option<string>
    requires IsSealed(x)
  {
    c.open(x.fields[ENC].s, x.fields[NONCE].s)
  }

  predicate Opens(c: Cipher, x: Json) {
    IsSealed(x) ==> Opened(c, x).Some?
  }

  function DecryptValue(c: Cipher, x: Json): Json {
    if IsSealed(x) && Opened(c, x).Some? then Str(Opened(c, x).value) else x
  }

  predicate AllOpen(c: Cipher, fields: Fields, names: seq<string>) {
    forall i :: 0 <= i < |names| && names[i] in fields ==> Opens(c, fields[names[i]])
  }

  function Decrypt(c: Cipher, v: Json): Option<Json> {
    if !v.Obj? || MARKER !in v.fields then Some(v)
    else if !AllOpen(c, v.fields, SecretFields()) then None
    else Some(Obj(Through(v.fields, SecretFields(), (k, x) => DecryptValue(c, x)) - {MARKER}))
  }

  // --- Storing and reading ---

  function Stored(key: Option<Cipher>, nonces: string -> string, v: Json): Json {
    if key.Some? then Encrypt(key.value, nonces, v) else v
  }

  /** None is an error: the value cannot be opened, or there is no key. */
  function Read(key: Option<Cipher>, v: Json): Option<Json> {
    if !v.Obj? || MARKER !in v.fields then Some(v)
    else if key.Some? then Decrypt(key.value, v)
    else None
  }

  function MaskValue(x: Json): Json {
    if IsSecret(x) then Str(MASK) else x
  }

  function Masked(v: Json): Json {
    if v.Obj? then Obj(Through(v.fields, SecretFields(), (k, x) => MaskValue(x))) else v
  }

  function MergeValue(existing: Json, k: string, x: Json): Json {
    if x == Str(MASK) && existing.Obj? && k in existing.fields then existing.fields[k] else x
  }

  /** What an update stores: masked secrets keep their current value. */
  function Merged(v: Json, existing: Json): Json {
    if v.Obj? then Obj(Through(v.fields, SecretFields(), (k, x) => MergeValue(existing, k, x))) else v
  }

  // --- The documents as they are edited ---

  class Document {
    var value: Json

    constructor (value: Json)
      ensures this.value == value
    {
      this.value := value;
    }

    /** One field of the loop below. */
    method EncryptField(c: Cipher, nonce: string, field: string) returns (touched: bool)
      requires value.Obj?
      modifies this
      ensures touched <==>
        field in old(value.fields) && (LooksSealed(old(value.fields)[field]) || IsSecret(old(value.fields)[field]))
      ensures value == Obj(
        if field in old(value.fields)
        then old(value.fields)[field := EncryptValue(c, nonce, old(value.fields)[field])]
        else old(value.fields))
    {
      if field !in value.fields { return false; }
      var existing := value.fields[field];
      assert value.fields[field := existing] == value.fields;
      if LooksSealed(existing) { return true; }
      if !existing.Str? || existing.s == "" { return false; }
      var sealed := Obj(map[ENC := Str(c.seal(existing.s, nonce)), NONCE := Str(nonce)]);
      value := Obj(value.fields[field := sealed]);
      touched := true;
    }

    method EncryptProfileSecrets(c: Cipher, nonces: string -> string)
      modifies this
      ensures value == Encrypt(c, nonces, old(value))
    {
      SecretNames(0);
      if !value.Obj? { return; }
      hide EncryptValue, IsSecret, LooksSealed, Through, Touches, SecretFields;
      AtFirst(value.fields, (k, x) => EncryptValue(c, nonces(k), x));
      ghost var fields := value.fields;
      ghost var g := (k, x) => EncryptValue(c, nonces(k), x);
      var wroteAny, i := false, 0;
      while i < |SecretFields()|
        invariant i <= |SecretFields()|
        invariant value == Obj(Through(fields, SecretFields()[..i], g))
        invariant wroteAny <==> Touches(fields, SecretFields()[..i])
      {
        var field := SecretFields()[i];
        ghost var names := SecretFields()[..i];
        SecretNames(i);
        ThroughOneMore(fields, names, field, g);
        TouchesOneMore(fields, names, field);
        ThroughAt(fields, names, field, g);
        var touched := EncryptField(c, nonces(field), field);
        wroteAny := wroteAny || touched;
        i := i + 1;
      }
      if wroteAny {
        value := Obj(value.fields[MARKER := Num(1)]);
      }
    }

    method DecryptProfileSecrets(c: Cipher) returns (ok: bool)
      modifies this
      ensures ok ==> Decrypt(c, old(value)) == Some(value)
      ensures !ok ==> Decrypt(c, old(value)) == None
    {
      SecretNames(0);
      if !value.Obj? || MARKER !in value.fields { return true; }
      hide DecryptValue, IsSealed, Through, SecretFields, Opens, AllOpen;
      AtFirst(value.fields, (k, x) => DecryptValue(c, x));
      OpenOneMore(c, value.fields, 0);
      ghost var fields := value.fields;
      ghost var g := (k, x) => DecryptValue(c, x);
      var i := 0;
      while i < |SecretFields()|
        invariant i <= |SecretFields()|
        invariant value == Obj(Through(fields, SecretFields()[..i], g))
        invariant AllOpen(c, fields, SecretFields()[..i])
      {
        var field := SecretFields()[i];
        ghost var names := SecretFields()[..i];
        SecretNames(i);
        ThroughOneMore(fields, names, field, g);
        ThroughAt(fields, names, field, g);
        OpenOneMore(c, fields, i);
        if field in value.fields {
          var entry := value.fields[field];
          WhenSealed(c, entry);
          if IsSealed(entry) {
            var plain := Opened(c, entry);
            if plain.None? { return false; }
            value := Obj(value.fields[field := Str(plain.value)]);
          }
        }
        i := i + 1;
      }
      value := Obj(value.fields - {MARKER});
      ok := true;
    }

    method MaskSecrets()
      modifies this
      ensures value == Masked(old(value))
    {
      SecretNames(0);
      if !value.Obj? { return; }
      hide SecretFields, Through;
      AtFirst(value.fields, (k, x) => MaskValue(x));
      ghost var fields := value.fields;
      ghost var g := (k, x) => MaskValue(x);
      var i := 0;
      while i < |SecretFields()|
        invariant i <= |SecretFields()|
        invariant value == Obj(Through(fields, SecretFields()[..i], g))
      {
        var key := SecretFields()[i];
        SecretNames(i);
        ThroughOneMore(fields, SecretFields()[..i], key, g);
        ThroughAt(fields, SecretFields()[..i], key, g);
        if key in value.fields && value.fields[key].Str? && value.fields[key].s != "" {
          value := Obj(value.fields[key := Str(MASK)]);
        }
        i := i + 1;
      }
    }

    method KeepSecrets(existing: Json)
      modifies this
      ensures value == Merged(old(value), existing)
    {
      SecretNames(0);
      if !value.Obj? { return; }
      hide SecretFields, Through, MergeValue;
      AtFirst(value.fields, (k, x) => MergeValue(existing, k, x));
      ghost var fields := value.fields;
      ghost var g := (k, x) => MergeValue(existing, k, x);
      var i := 0;
      while i < |SecretFields()|
        invariant i <= |SecretFields()|
        invariant value == Obj(Through(fields, SecretFields()[..i], g))
      {
        var key := SecretFields()[i];
        SecretNames(i);
        ThroughOneMore(fields, SecretFields()[..i], key, g);
        ThroughAt(fields, SecretFields()[..i], key, g);
        if key in fields { MergeKeeps(existing, key, fields[key]); }
        if key in value.fields && value.fields[key] == Str(MASK) {
          if existing.Obj? && key in existing.fields {
            value := Obj(value.fields[key := existing.fields[key]]);
          }
        }
        i := i + 1;
      }
    }
  }

  lemma TouchesOneMore(fields: Fields, names: seq<string>, f: string)
    ensures Touches(fields, names + [f]) <==>
      Touches(fields, names) || (f in fields && (LooksSealed(fields[f]) || IsSecret(fields[f])))
  {
    var all := names + [f];
    assert all[|names|] == f;
    assert forall i :: 0 <= i < |names| ==> all[i] == names[i];
  }

  lemma AtFirst(fields: Fields, g: (string, Json) -> Json)
    ensures Through(fields, [], g) == fields && !Touches(fields, [])
  {
  }

  lemma ThroughAt(fields: Fields, names: seq<string>, f: string, g: (string, Json) -> Json)
    requires f !in names
    ensures f in Through(fields, names, g) <==> f in fields
    ensures f in fields ==> Through(fields, names, g)[f] == fields[f]
    ensures f in fields ==> Through(fields, names, g)[f := fields[f]] == Through(fields, names, g)
  {
  }

  lemma MergeKeeps(existing: Json, k: string, x: Json)
    ensures x != Str(MASK) || !existing.Obj? || k !in existing.fields ==> MergeValue(existing, k, x) == x
    ensures x == Str(MASK) && existing.Obj? && k in existing.fields ==>
      MergeValue(existing, k, x) == existing.fields[k]
  {
  }

  lemma OpenOneMore(c: Cipher, fields: Fields, i: nat)
    requires i < |SecretFields()|
    ensures AllOpen(c, fields, [])
    ensures var f := SecretFields()[i];
      AllOpen(c, fields, SecretFields()[..i + 1]) <==>
        AllOpen(c, fields, SecretFields()[..i]) && (f in fields ==> Opens(c, fields[f]))
    ensures var f := SecretFields()[i];
      f in fields && !Opens(c, fields[f]) ==> !AllOpen(c, fields, SecretFields())
  {
    hide SecretFields, Opens;
  }

  lemma WhenSealed(c: Cipher, x: Json)
    ensures IsSealed(x) && Opened(c, x).Some? ==> DecryptValue(c, x) == Str(Opened(c, x).value)
    ensures !IsSealed(x) ==> DecryptValue(c, x) == x && Opens(c, x)
    ensures IsSealed(x) ==> (Opens(c, x) <==> Opened(c, x).Some?)
  {
  }
}
