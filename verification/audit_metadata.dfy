/** How audit metadata is split and encrypted when logged, and decrypted and merged when
    listed (audit/repository.go). */
module AuditMetadata {
  import opened Names

  /** A JSON value; Nil is null, and only text can be a payload. */
  datatype Value = Nil | Text(text: string) | Other(json: string)

  /** A metadata key: the six that stay in clear text, "payload", and every other name. */
  datatype Field = Outcome | Status | Location | Reason | AnomalyType | RiskScore | Payload | Named(name: string)

  type Meta = map<Field, Value>

  /** JSON encoding followed by encryption, and the way back. */
  datatype Codec = Codec(seal: Meta -> string, unseal: string -> Option<Meta>)

  /** What the cipher and the JSON package promise together: opening undoes sealing, and a
      sealed text is not empty. */
  ghost predicate Lawful(codec: Codec) {
    forall m :: codec.unseal(codec.seal(m)) == Some(m) && codec.seal(m) != ""
  }

  predicate Clear(k: Field) {
    !k.Payload? && !k.Named?
  }

  /** The part of the metadata that Log encrypts. */
  function Sensitive(m: Meta): Meta {
    map k | k in m && !Clear(k) :: m[k]
  }

  /** The clear fields that are not null. */
  function Shown(m: Meta): Meta {
    map k | k in m && Clear(k) && m[k] != Nil :: m[k]
  }

  /** The row's metadata column; empty metadata is stored as NULL, which List reads as {}. */
  function Stored(codec: Codec, m: Meta): Meta {
    if m == map[] then map[] else Shown(m)[Payload := Text(codec.seal(Sensitive(m)))]
  }

  function Merged(hidden: Meta, clear: Meta): Meta {
    map k | k in hidden.Keys + clear.Keys :: if k in clear then clear[k] else hidden[k]
  }

  /** What List shows for a stored column; None is an error. */
  function Listed(codec: Codec, stored: Meta): Option<Meta> {
    if Payload !in stored then Some(stored)
    else match stored[Payload]
      case Text(text) =>
        if text == "" then None
        else (match codec.unseal(text)
              case None => None
              case Some(hidden) => Some(Merged(hidden, stored - {Payload})))
      case _ => None
  }

  /** Logged and listed, metadata comes back the same, a "payload" key of its own included, if
      and only if none of its clear fields is null. */
  lemma RoundTrip(codec: Codec, m: Meta)
    requires Lawful(codec)
    ensures Listed(codec, Stored(codec, m)).Some?
    ensures Listed(codec, Stored(codec, m)) == Some(m) <==> forall k :: k in m && Clear(k) ==> m[k] != Nil
  {
    if m != map[] {
      var stored := Stored(codec, m);
      assert stored - {Payload} == Shown(m);
      assert codec.unseal(codec.seal(Sensitive(m))) == Some(Sensitive(m));
      var back := Listed(codec, stored).value;
      assert back.Keys == Sensitive(m).Keys + Shown(m).Keys;
      if forall k :: k in m && Clear(k) ==> m[k] != Nil {
        assert back == m;
      } else {
        var k :| k in m && Clear(k) && m[k] == Nil;
        assert k !in back;
      }
    }
  }

  function WithoutNullClears(m: Meta): Meta {
    map k | k in m && !(Clear(k) && m[k] == Nil) :: m[k]
  }

  /** Whatever the rest of the metadata holds, the only thing a round trip can lose is a null
      clear field. */
  lemma OnlyNullsAreLost(codec: Codec, m: Meta)
    requires Lawful(codec)
    ensures Listed(codec, Stored(codec, m)) == Some(WithoutNullClears(m))
  {
    if m == map[] {
      assert WithoutNullClears(m) == map[];
    } else {
      assert Stored(codec, m) - {Payload} == Shown(m);
      assert codec.unseal(codec.seal(Sensitive(m))) == Some(Sensitive(m));
      assert Listed(codec, Stored(codec, m)).value == WithoutNullClears(m);
    }
  }

  /** For any stored column, forged payload or not, decrypted content never overrides a clear field. */
  lemma ClearFieldsWin(codec: Codec, stored: Meta, k: Field)
    requires Listed(codec, stored).Some? && k in stored && k != Payload
    ensures k in Listed(codec, stored).value && Listed(codec, stored).value[k] == stored[k]
  {
  }

  /** The column of a logged entry: the payload, and of the six clear fields those that are present and
      not null, with their values; sealed is all of the metadata but those six. */
  lemma ColumnExactly(codec: Codec, m: Meta, k: Field)
    ensures m == map[] ==> Stored(codec, m) == map[]
    ensures m != map[] ==>
              var column := Stored(codec, m);
              && (k in column <==>
                   || k == Payload
                   || (k in m && m[k] != Nil && k in {Outcome, Status, Location, Reason, AnomalyType, RiskScore}))
              && (k in column && k != Payload ==> column[k] == m[k])
              && column[Payload] == Text(codec.seal(m - {Outcome, Status, Location, Reason, AnomalyType, RiskScore}))
  {
    assert Sensitive(m) == m - {Outcome, Status, Location, Reason, AnomalyType, RiskScore};
  }

  /** Two entries that agree on the six clear fields differ in their columns at most in the sealed
      text: nothing else of the metadata shows. */
  lemma OnlyThePayloadTells(codec: Codec, m: Meta, n: Meta)
    requires m != map[] && n != map[]
    requires forall k :: k in {Outcome, Status, Location, Reason, AnomalyType, RiskScore} ==>
               (k in m <==> k in n) && (k in m ==> m[k] == n[k])
    ensures var rest := {Outcome, Status, Location, Reason, AnomalyType, RiskScore};
            && Stored(codec, m) - {Payload} == Stored(codec, n) - {Payload}
            && (codec.seal(m - rest) == codec.seal(n - rest) <==> Stored(codec, m) == Stored(codec, n))
  {
    forall k: Field ensures (k in Stored(codec, m) <==> k in Stored(codec, n)) && (k in Stored(codec, m) && k != Payload ==> Stored(codec, m)[k] == Stored(codec, n)[k]) {
      ColumnExactly(codec, m, k);
      ColumnExactly(codec, n, k);
    }
    var rest := {Outcome, Status, Location, Reason, AnomalyType, RiskScore};
    ColumnExactly(codec, m, Payload);
    ColumnExactly(codec, n, Payload);
    assert Stored(codec, m) == (Stored(codec, m) - {Payload})[Payload := Text(codec.seal(m - rest))];
    assert Stored(codec, n) == (Stored(codec, n) - {Payload})[Payload := Text(codec.seal(n - rest))];
  }

  const CLEAR_FIELDS: seq<Field> := [Outcome, Status, Location, Reason, AnomalyType, RiskScore]

  /** The column once the clear fields in done have been copied. */
  function Part(m: Meta, done: seq<Field>, text: string): Meta {
    (map k | k in m && k in done && m[k] != Nil :: m[k])[Payload := Text(text)]
  }

  lemma PartMore(m: Meta, done: seq<Field>, k: Field, text: string)
    requires k != Payload
    ensures Part(m, done + [k], text) == if k in m && m[k] != Nil then Part(m, done, text)[k := m[k]] else Part(m, done, text)
  {
  }

  lemma AllShown(m: Meta, text: string)
    ensures Part(m, CLEAR_FIELDS, text) == Shown(m)[Payload := Text(text)]
  {
    forall k: Field ensures Clear(k) <==> k in CLEAR_FIELDS {
    }
    assert (map k | k in m && k in CLEAR_FIELDS && m[k] != Nil :: m[k]) == Shown(m);
  }

  class Repository {
    var column: Meta

    constructor ()
      ensures column == map[]
    {
      column := map[];
    }

    /** Log of one entry, with a secrets client configured. */
    method Log(codec: Codec, metadata: Meta, location: Option<Value>)
      modifies this
      ensures column == Stored(codec, if location.Some? then metadata[Location := location.value] else metadata)
      // field by field
      ensures metadata == map[] && location.None? ==> column == map[]
      ensures metadata != map[] || location.Some? ==>
                var meta := if location.Some? then metadata[Location := location.value] else metadata;
                && column.Keys == {Payload} + (set k | k in meta && meta[k] != Nil
                                                       && k in {Outcome, Status, Location, Reason, AnomalyType, RiskScore})
                && (forall k :: k in column && k != Payload ==> column[k] == meta[k])
                && column[Payload] == Text(codec.seal(meta - {Outcome, Status, Location, Reason, AnomalyType, RiskScore}))
    {
      var meta := metadata;
      if location.Some? {
        meta := meta[Location := location.value];
      }
      if |meta| == 0 {
        column := map[];
        return;
      }
      var sensitive := Split(meta);
      column := CopyFields(meta, CLEAR_FIELDS, codec.seal(sensitive));
      AllShown(meta, codec.seal(sensitive));
      forall k: Field {
        ColumnExactly(codec, meta, k);
      }
    }

    method Split(meta: Meta) returns (sensitive: Meta)
      ensures sensitive == Sensitive(meta)
    {
      sensitive := map[];
      var todo := meta.Keys;
      while todo != {}
        invariant todo <= meta.Keys
        invariant sensitive == map k | k in meta && k !in todo && !Clear(k) :: meta[k]
        decreases todo
      {
        var k :| k in todo;
        if !Clear(k) {
          sensitive := sensitive[k := meta[k]];
        }
        todo := todo - {k};
      }
    }

    /** The given fields one after another, each unless it is absent or null. */
    method CopyFields(meta: Meta, fields: seq<Field>, text: string) returns (db: Meta)
      requires Payload !in fields
      ensures db == Part(meta, fields, text)
    {
      db := map[Payload := Text(text)];
      assert db == Part(meta, [], text);
      for i := 0 to |fields|
        invariant db == Part(meta, fields[..i], text)
      {
        var k := fields[i];
        PartMore(meta, fields[..i], k, text);
        assert fields[..i + 1] == fields[..i] + [k];
        if k in meta && meta[k] != Nil {
          db := db[k := meta[k]];
        }
      }
      assert fields[..|fields|] == fields;
    }

    /** List's treatment of one row. */
    method List(codec: Codec) returns (shown: Option<Meta>)
      ensures shown == Listed(codec, column)
      // field by field
      ensures Payload !in column ==> shown == Some(column)
      ensures Payload in column ==>
                (shown.Some? <==> column[Payload].Text? && column[Payload].text != "" && codec.unseal(column[Payload].text).Some?)
      ensures Payload in column && shown.Some? ==>
                var hidden := codec.unseal(column[Payload].text).value;
                && shown.value.Keys == hidden.Keys + (column.Keys - {Payload})
                && forall k :: k in shown.value ==>
                     shown.value[k] == if k in column && k != Payload then column[k] else hidden[k]
    {
      if Payload !in column {
        return Some(column);
      }
      if !column[Payload].Text? || column[Payload].text == "" {
        return None;
      }
      var hidden := codec.unseal(column[Payload].text);
      if hidden.None? {
        return None;
      }
      var clear := column - {Payload};
      var merged := clear;
      var todo := hidden.value.Keys;
      while todo != {}
        invariant todo <= hidden.value.Keys
        invariant merged == map k | k in (hidden.value.Keys - todo) + clear.Keys :: if k in clear then clear[k] else hidden.value[k]
        decreases todo
      {
        var k :| k in todo;
        if k !in merged {
          merged := merged[k := hidden.value[k]];
        }
        todo := todo - {k};
      }
      assert merged == Merged(hidden.value, clear);
      shown := Some(merged);
    }
  }
}
