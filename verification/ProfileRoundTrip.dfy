/** What storing, reading, masking and updating a profile preserve
    (apps/snx-edge-server/src/db_secrets.rs, api/profiles.rs, db.rs). */
module ProfileRoundTrip {
  import opened Text
  import opened ProfileSecrets

  /** The key, if there is one, opens what it sealed, and nonces are drawn from
      it. */
  ghost predicate Sound(key: Option<Cipher>, nonces: string -> string) {
    key.Some? ==> Lawful(key.value) && forall f :: key.value.nonce(nonces(f))
  }

  /** No marker, and with a key no secret field that already has the sealed
      form. */
  predicate ReadsBack(key: Option<Cipher>, v: Json) {
    v.Obj? ==>
      && MARKER !in v.fields
      && (key.Some? ==>
            forall i :: 0 <= i < |SecretFields()| && SecretFields()[i] in v.fields ==>
              !IsSealed(v.fields[SecretFields()[i]]))
  }

  lemma ValueComesBack(c: Cipher, nonce: string, x: Json)
    requires Lawful(c) && c.nonce(nonce)
    ensures var y := EncryptValue(c, nonce, x);
      Opens(c, y) && DecryptValue(c, y) == x <==> !IsSealed(x)
  {
    NamesDiffer();
  }

  /** With a marker, decryption gives the fields back exactly if every secret
      field comes back. */
  lemma FieldsComeBack(c: Cipher, nonces: string -> string, fields: Fields)
    requires Lawful(c) && (forall f :: c.nonce(nonces(f))) && MARKER !in fields
    ensures var sealed := Through(fields, SecretFields(), (k, x) => EncryptValue(c, nonces(k), x))[MARKER := Num(1)];
      Decrypt(c, Obj(sealed)) == Some(Obj(fields)) <==>
        forall i :: 0 <= i < |SecretFields()| && SecretFields()[i] in fields ==> !IsSealed(fields[SecretFields()[i]])
  {
    hide EncryptValue, DecryptValue, IsSealed, Opens;
    NamesDiffer();
    var sealed := Through(fields, SecretFields(), (k, x) => EncryptValue(c, nonces(k), x))[MARKER := Num(1)];
    forall i | 0 <= i < |SecretFields()| && SecretFields()[i] in fields
      ensures Opens(c, sealed[SecretFields()[i]]) && DecryptValue(c, sealed[SecretFields()[i]]) == fields[SecretFields()[i]]
        <==> !IsSealed(fields[SecretFields()[i]])
    {
      ValueComesBack(c, nonces(SecretFields()[i]), fields[SecretFields()[i]]);
    }
    DecryptGives(c, sealed, fields);
  }

  lemma DecryptGives(c: Cipher, sealed: Fields, fields: Fields)
    requires MARKER in sealed && sealed.Keys == fields.Keys + {MARKER} && MARKER !in fields
    requires forall k :: k in fields && k !in SecretFields() ==> sealed[k] == fields[k]
    ensures Decrypt(c, Obj(sealed)) == Some(Obj(fields)) <==>
      forall i :: 0 <= i < |SecretFields()| && SecretFields()[i] in fields ==>
        Opens(c, sealed[SecretFields()[i]]) && DecryptValue(c, sealed[SecretFields()[i]]) == fields[SecretFields()[i]]
  {
    hide DecryptValue, Opens;
    NamesDiffer();
    var plain := Through(sealed, SecretFields(), (k, x) => DecryptValue(c, x)) - {MARKER};
    assert plain.Keys == fields.Keys;
    if forall i :: 0 <= i < |SecretFields()| && SecretFields()[i] in fields ==>
         DecryptValue(c, sealed[SecretFields()[i]]) == fields[SecretFields()[i]]
    {
      assert plain == fields;
    } else {
      var i :| 0 <= i < |SecretFields()| && SecretFields()[i] in fields
        && DecryptValue(c, sealed[SecretFields()[i]]) != fields[SecretFields()[i]];
      assert plain[SecretFields()[i]] != fields[SecretFields()[i]];
    }
  }

  lemma NothingTouched(c: Cipher, nonces: string -> string, fields: Fields)
    requires !Touches(fields, SecretFields())
    ensures Encrypt(c, nonces, Obj(fields)) == Obj(fields)
    ensures forall i :: 0 <= i < |SecretFields()| && SecretFields()[i] in fields ==> !IsSealed(fields[SecretFields()[i]])
  {
    var g := (k, x) => EncryptValue(c, nonces(k), x);
    forall k | k in fields ensures Through(fields, SecretFields(), g)[k] == fields[k] {
      if k in SecretFields() {
        var i :| 0 <= i < |SecretFields()| && SecretFields()[i] == k;
        assert !IsSecret(fields[SecretFields()[i]]);
      }
    }
    assert Through(fields, SecretFields(), g) == fields;
  }

  /** A stored configuration reads back as it was exactly when it has no marker
      of its own and, with a key, no secret field of the sealed form. */
  lemma StoredReadsBack(key: Option<Cipher>, nonces: string -> string, v: Json)
    requires Sound(key, nonces)
    ensures Read(key, Stored(key, nonces, v)) == Some(v) <==> ReadsBack(key, v)
  {
    hide Through, Touches, AllOpen, IsSealed;
    NamesDiffer();
    if v.Obj? && key.Some? {
      if MARKER in v.fields {
        MarkerIsLost(key.value, nonces, v);
      } else if Touches(v.fields, SecretFields()) {
        FieldsComeBack(key.value, nonces, v.fields);
      } else {
        NothingTouched(key.value, nonces, v.fields);
      }
    }
  }

  lemma MarkerIsLost(c: Cipher, nonces: string -> string, v: Json)
    requires v.Obj? && MARKER in v.fields
    ensures Read(Some(c), Encrypt(c, nonces, v)) != Some(v)
  {
    var e := Encrypt(c, nonces, v);
    assert MARKER in e.fields;
    var d := Decrypt(c, e);
    assert d.Some? ==> MARKER !in d.value.fields;
  }

  /** Putting back what a read showed, masks and all, merges into the current
      configuration itself. */
  lemma MaskedMergesBack(v: Json)
    ensures Merged(Masked(v), v) == v
  {
    if v.Obj? {
      assert Masked(v).fields.Keys == v.fields.Keys;
      assert Merged(Masked(v), v).fields == v.fields;
    }
  }

  /** GET, PUT, GET. Reading a stored configuration, writing the masked answer
      back unchanged and reading again gives the original, exactly under the
      condition for reading back at all. */
  lemma GetPutGet(key: Option<Cipher>, nonces: string -> string, later: string -> string, v: Json)
    requires Sound(key, nonces) && Sound(key, later) && Read(key, Stored(key, nonces, v)) == Some(v)
    ensures var merged := Merged(Masked(v), v);
      Read(key, Stored(key, later, merged)) == Some(v)
  {
    MaskedMergesBack(v);
    StoredReadsBack(key, nonces, v);
    StoredReadsBack(key, later, v);
  }

  /** Encrypting again changes nothing, whatever nonces are drawn. */
  lemma EncryptTwice(c: Cipher, nonces: string -> string, later: string -> string, v: Json)
    ensures var e := Encrypt(c, nonces, v); Encrypt(c, later, e) == e
  {
    NamesDiffer();
    if v.Obj? {
      var e := Encrypt(c, nonces, v);
      forall k | k in SecretFields() && k in v.fields
        ensures !IsSecret(e.fields[k])
        ensures LooksSealed(e.fields[k]) <==> LooksSealed(v.fields[k]) || IsSecret(v.fields[k])
      {
      }
      hide EncryptValue, IsSecret, LooksSealed;
      NothingSecret(c, later, e.fields);
      if Touches(v.fields, SecretFields()) {
        assert e.fields[MARKER := Num(1)] == e.fields;
      } else {
        SameTouches(v.fields, e.fields);
      }
    }
  }

  lemma SameTouches(a: Fields, b: Fields)
    requires forall i :: 0 <= i < |SecretFields()| ==>
      (SecretFields()[i] in b && (LooksSealed(b[SecretFields()[i]]) || IsSecret(b[SecretFields()[i]]))
       ==> SecretFields()[i] in a && (LooksSealed(a[SecretFields()[i]]) || IsSecret(a[SecretFields()[i]])))
    ensures Touches(b, SecretFields()) ==> Touches(a, SecretFields())
  {
  }

  lemma NothingSecret(c: Cipher, nonces: string -> string, fields: Fields)
    requires forall i :: 0 <= i < |SecretFields()| && SecretFields()[i] in fields ==> !IsSecret(fields[SecretFields()[i]])
    ensures Through(fields, SecretFields(), (k, x) => EncryptValue(c, nonces(k), x)) == fields
  {
    var g := (k, x) => EncryptValue(c, nonces(k), x);
    forall k | k in fields ensures Through(fields, SecretFields(), g)[k] == fields[k] {
      if k in SecretFields() {
        var i :| 0 <= i < |SecretFields()| && SecretFields()[i] == k;
        assert !IsSecret(fields[SecretFields()[i]]);
      }
    }
  }

  /** With a key no stored secret field is a non-empty string, every one that
      was is sealed under its nonce, and all other fields stay. */
  lemma NothingStoredPlain(c: Cipher, nonces: string -> string, v: Json, k: string)
    requires v.Obj? && k in v.fields && k != MARKER
    ensures var e := Encrypt(c, nonces, v);
      && e.Obj? && k in e.fields
      && (k in SecretFields() ==>
            && !IsSecret(e.fields[k])
            && (IsSecret(v.fields[k]) ==> IsSealed(e.fields[k]) && e.fields[k].fields[ENC] == Str(c.seal(v.fields[k].s, nonces(k)))))
      && (k !in SecretFields() || !IsSecret(v.fields[k]) ==> e.fields[k] == v.fields[k])
  {
    NamesDiffer();
  }

  /** Equal but for the texts of non-empty secrets. */
  predicate SameButSecrets(v: Json, w: Json) {
    if v.Obj? && w.Obj? then
      && v.fields.Keys == w.fields.Keys
      && forall k :: k in v.fields ==>
           v.fields[k] == w.fields[k] || (k in SecretFields() && IsSecret(v.fields[k]) && IsSecret(w.fields[k]))
    else v == w
  }

  /** What is shown tells two configurations apart exactly when they differ in
      more than the texts of their secrets. */
  lemma MaskRevealsNothing(v: Json, w: Json)
    ensures Masked(v) == Masked(w) <==> SameButSecrets(v, w)
  {
    NamesDiffer();
    if v.Obj? && w.Obj? {
      var (a, b) := (Masked(v).fields, Masked(w).fields);
      if a == b {
        assert a.Keys == v.fields.Keys && b.Keys == w.fields.Keys;
        forall k | k in v.fields
          ensures v.fields[k] == w.fields[k] || (k in SecretFields() && IsSecret(v.fields[k]) && IsSecret(w.fields[k]))
        {
          assert a[k] == b[k];
          MaskTellsApart(v.fields[k], w.fields[k]);
        }
      } else if SameButSecrets(v, w) {
        assert a.Keys == b.Keys;
        assert forall k :: k in a ==> a[k] == b[k];
      }
    }
  }

  lemma MaskTellsApart(x: Json, y: Json)
    ensures MaskValue(x) == MaskValue(y) ==> x == y || (IsSecret(x) && IsSecret(y))
  {
  }
}
