/** Session keys of a candidate: assembled from an unordered list of typed keys, and converted to and from the formats
    in which permissioned candidates are stored. */
module CandidateKeys {
  import opened Prelude
  import opened Collections

  newtype Byte = b: int | 0 <= b < 256

  type Bytes = seq<Byte>

  const MAX_ENCODED_KEYS: nat := 1024
  const KEY_TYPE_ID_LENGTH: nat := 4
  const ECDSA_LENGTH: nat := 33

  datatype CandidateKey = CandidateKey(id: Bytes, bytes: Bytes)

  /** A session key type: the key type ids in field order and the encoded size of each field. */
  datatype KeysType = KeysType(ids: seq<Bytes>, sizes: seq<nat>)
  {
    ghost predicate Valid() {
      && |ids| == |sizes|
      && (forall i :: 0 <= i < |ids| ==> |ids[i]| == KEY_TYPE_ID_LENGTH)
    }

    ghost predicate DistinctIds() {
      forall i, j :: 0 <= i < j < |ids| ==> ids[i] != ids[j]
    }
  }

  function Find(keys: seq<CandidateKey>, id: Bytes): Option<Bytes> {
    if |keys| == 0 then None
    else if keys[0].id == id then Some(keys[0].bytes)
    else Find(keys[1..], id)
  }

  /** The collecting loop: bytes of the required keys, in order, within the bound. */
  function Gather(ids: seq<Bytes>, keys: seq<CandidateKey>): Option<Bytes> {
    if |ids| == 0 then Some([])
    else
      var n := |ids| - 1;
      match Gather(ids[..n], keys)
      case None => None
      case Some(encoded) =>
        match Find(keys, ids[n])
        case None => None
        case Some(bytes) => if |encoded| + |bytes| > MAX_ENCODED_KEYS then None else Some(encoded + bytes)
  }

  /** Decoding of fixed-size fields; bytes left over at the end are ignored. */
  function Decode(sizes: seq<nat>, data: Bytes): Option<seq<Bytes>> {
    if |sizes| == 0 then Some([])
    else if |data| < sizes[0] then None
    else
      match Decode(sizes[1..], data[sizes[0]..])
      case None => None
      case Some(fields) => Some([data[..sizes[0]]] + fields)
  }

  function MaybeFrom(t: KeysType, keys: seq<CandidateKey>): Option<seq<Bytes>> {
    match Gather(t.ids, keys)
    case None => None
    case Some(encoded) => Decode(t.sizes, encoded)
  }

  method MaybeFromCandidateKeys(t: KeysType, keys: seq<CandidateKey>) returns (r: Option<seq<Bytes>>)
    ensures r == MaybeFrom(t, keys)
  {
    var encoded: Bytes := [];
    for i := 0 to |t.ids|
      invariant Gather(t.ids[..i], keys) == Some(encoded)
    {
      assert t.ids[..i + 1][..i] == t.ids[..i];
      var key := Find(keys, t.ids[i]);
      if key.None? || |encoded| + |key.value| > MAX_ENCODED_KEYS {
        GatherFails(t.ids, keys, i + 1);
        return None;
      }
      encoded := encoded + key.value;
    }
    assert t.ids[..|t.ids|] == t.ids;
    return Decode(t.sizes, encoded);
  }

  lemma {:induction false} GatherFails(ids: seq<Bytes>, keys: seq<CandidateKey>, n: nat)
    requires n <= |ids| && Gather(ids[..n], keys).None?
    ensures Gather(ids, keys).None?
  {
    if n == |ids| {
      assert ids[..n] == ids;
    } else {
      assert ids[..|ids| - 1][..n] == ids[..n];
      GatherFails(ids[..|ids| - 1], keys, n);
    }
  }

  // ---------------------------------------------------------------- what is decoded

  function Concat(fields: seq<Bytes>): Bytes {
    if |fields| == 0 then [] else Concat(fields[..|fields| - 1]) + fields[|fields| - 1]
  }

  /** The candidate lists exactly these bytes under the required ids. */
  ghost predicate Lists(ids: seq<Bytes>, keys: seq<CandidateKey>, fields: seq<Bytes>) {
    |fields| == |ids| && forall i :: 0 <= i < |ids| ==> Find(keys, ids[i]) == Some(fields[i])
  }

  ghost predicate Sized(fields: seq<Bytes>, sizes: seq<nat>) {
    |fields| == |sizes| && forall i :: 0 <= i < |sizes| ==> |fields[i]| == sizes[i]
  }

  lemma {:induction false} ConcatLength(fields: seq<Bytes>, sizes: seq<nat>)
    requires Sized(fields, sizes)
    ensures |Concat(fields)| == TotalOf(sizes)
  {
    if |fields| > 0 {
      ConcatFirst(fields);
      ConcatLength(fields[1..], sizes[1..]);
    }
  }

  lemma {:induction false} ConcatFirst(fields: seq<Bytes>)
    requires |fields| > 0
    ensures Concat(fields) == fields[0] + Concat(fields[1..])
  {
    if |fields| > 1 {
      var n := |fields| - 1;
      ConcatFirst(fields[..n]);
      assert fields[..n][1..] == fields[1..][..n - 1];
      var middle := Concat(fields[1..][..n - 1]);
      assert fields[0] + (middle + fields[n]) == fields[0] + middle + fields[n];
    } else {
      assert fields[..0] == [] && fields[1..] == [];
    }
  }

  lemma {:induction false} GatherIsConcat(ids: seq<Bytes>, keys: seq<CandidateKey>, fields: seq<Bytes>)
    requires Lists(ids, keys, fields)
    ensures Gather(ids, keys) == if |Concat(fields)| <= MAX_ENCODED_KEYS then Some(Concat(fields)) else None
  {
    if |ids| > 0 {
      GatherIsConcat(ids[..|ids| - 1], keys, fields[..|fields| - 1]);
    }
  }

  lemma {:induction false} DecodeConcat(fields: seq<Bytes>, sizes: seq<nat>)
    requires Sized(fields, sizes)
    ensures Decode(sizes, Concat(fields)) == Some(fields)
  {
    if |fields| > 0 {
      ConcatFirst(fields);
      DecodeConcat(fields[1..], sizes[1..]);
      assert Concat(fields)[sizes[0]..] == Concat(fields[1..]);
      assert Concat(fields)[..sizes[0]] == fields[0];
      assert fields == [fields[0]] + fields[1..];
    }
  }

  lemma {:induction false} DecodedAreSized(sizes: seq<nat>, data: Bytes)
    requires Decode(sizes, data).Some?
    ensures Sized(Decode(sizes, data).value, sizes)
  {
    if |sizes| > 0 {
      DecodedAreSized(sizes[1..], data[sizes[0]..]);
    }
  }

  lemma {:induction false} GatherNeedsAll(ids: seq<Bytes>, keys: seq<CandidateKey>, i: nat)
    requires Gather(ids, keys).Some? && i < |ids|
    ensures Find(keys, ids[i]).Some?
  {
    if i < |ids| - 1 {
      GatherNeedsAll(ids[..|ids| - 1], keys, i);
    }
  }

  /** The assembled keys are the candidate's keys if and only if every required key is listed with exactly its size and
      all of them fit the bound. */
  lemma AssembledIffSized(t: KeysType, keys: seq<CandidateKey>, fields: seq<Bytes>)
    requires t.Valid() && Lists(t.ids, keys, fields)
    ensures MaybeFrom(t, keys) == Some(fields) <==> Sized(fields, t.sizes) && TotalOf(t.sizes) <= MAX_ENCODED_KEYS
  {
    GatherIsConcat(t.ids, keys, fields);
    if Sized(fields, t.sizes) {
      ConcatLength(fields, t.sizes);
      DecodeConcat(fields, t.sizes);
    } else if MaybeFrom(t, keys) == Some(fields) {
      DecodedAreSized(t.sizes, Gather(t.ids, keys).value);
      assert false;
    }
  }

  /** Decoding takes the fields off the front of the data, needs all of their bytes and ignores the rest. */
  lemma {:induction false} DecodeTakesFront(sizes: seq<nat>, data: Bytes)
    ensures Decode(sizes, data).Some? <==> TotalOf(sizes) <= |data|
    ensures Decode(sizes, data).Some? ==> Concat(Decode(sizes, data).value) == data[..TotalOf(sizes)]
  {
    if |sizes| > 0 {
      if |data| >= sizes[0] {
        DecodeTakesFront(sizes[1..], data[sizes[0]..]);
        if Decode(sizes, data).Some? {
          ConcatFirst(Decode(sizes, data).value);
          assert data[..TotalOf(sizes)] == data[..sizes[0]] + data[sizes[0]..][..TotalOf(sizes[1..])];
        }
      }
    }
  }

  /** What is assembled from any listed keys: it succeeds exactly when together they fit the bound and are long
      enough, and then cuts their concatenation into fields of the required sizes. */
  lemma AssembledIs(t: KeysType, keys: seq<CandidateKey>, fields: seq<Bytes>)
    requires t.Valid() && Lists(t.ids, keys, fields)
    ensures
      var all, r := Concat(fields), MaybeFrom(t, keys);
      && (r.Some? <==> TotalOf(t.sizes) <= |all| <= MAX_ENCODED_KEYS)
      && (r.Some? ==> Sized(r.value, t.sizes) && Concat(r.value) == all[..TotalOf(t.sizes)])
  {
    GatherIsConcat(t.ids, keys, fields);
    DecodeTakesFront(t.sizes, Concat(fields));
    if Decode(t.sizes, Concat(fields)).Some? {
      DecodedAreSized(t.sizes, Concat(fields));
    }
  }

  /** The first key with an id is found, also when the id is listed again. */
  lemma {:induction false} FindIsFirst(keys: seq<CandidateKey>, id: Bytes, i: nat)
    requires i < |keys| && keys[i].id == id && forall j :: 0 <= j < i ==> keys[j].id != id
    ensures Find(keys, id) == Some(keys[i].bytes)
  {
    if i > 0 {
      FindIsFirst(keys[1..], id, i - 1);
    }
  }

  /** A missing required key is always fatal. */
  lemma MissingKeyFails(t: KeysType, keys: seq<CandidateKey>, i: nat)
    requires i < |t.ids| && Find(keys, t.ids[i]).None?
    ensures MaybeFrom(t, keys).None?
  {
    if Gather(t.ids, keys).Some? {
      GatherNeedsAll(t.ids, keys, i);
    }
  }

  /** Keys of wrong sizes that add up are accepted and cut at the wrong place. */
  lemma WrongSizesAreCutElsewhere(first: Bytes, second: Bytes)
    requires |first| == KEY_TYPE_ID_LENGTH && |second| == KEY_TYPE_ID_LENGTH && first != second
    ensures
      var t := KeysType([first, second], [2, 2]);
      var keys := [CandidateKey(first, [1]), CandidateKey(second, [2, 3, 4])];
      MaybeFrom(t, keys) == Some([[1, 2], [3, 4]])
  {
    var t := KeysType([first, second], [2, 2]);
    var keys := [CandidateKey(first, [1]), CandidateKey(second, [2, 3, 4])];
    var fields: seq<Bytes> := [[1], [2, 3, 4]];
    assert Find(keys, second) == Find(keys[1..], second) == Some(fields[1]);
    GatherIsConcat(t.ids, keys, fields);
    assert fields[..1] == [fields[0]] && [fields[0]][..0] == [];
    assert Concat([fields[0]]) == [1];
    assert Concat(fields) == [1, 2, 3, 4];
    var parts: seq<Bytes> := [[1, 2], [3, 4]];
    assert parts[..1] == [parts[0]] && [parts[0]][..0] == [];
    assert Concat([parts[0]]) == [1, 2];
    assert Concat(parts) == [1, 2, 3, 4];
    DecodeConcat(parts, t.sizes);
  }

  // ---------------------------------------------------------------- order and extra keys

  ghost predicate DistinctKeyIds(keys: seq<CandidateKey>) {
    forall i, j :: 0 <= i < j < |keys| ==> keys[i].id != keys[j].id
  }

  lemma {:induction false} FindIsMembership(keys: seq<CandidateKey>, id: Bytes, bytes: Bytes)
    requires DistinctKeyIds(keys)
    ensures Find(keys, id) == Some(bytes) <==> CandidateKey(id, bytes) in keys
  {
    if |keys| > 0 {
      assert keys == [keys[0]] + keys[1..];
      FindIsMembership(keys[1..], id, bytes);
    }
  }

  lemma {:induction false} GatherDependsOnFind(ids: seq<Bytes>, keys: seq<CandidateKey>, keys': seq<CandidateKey>)
    requires forall i :: 0 <= i < |ids| ==> Find(keys, ids[i]) == Find(keys', ids[i])
    ensures Gather(ids, keys) == Gather(ids, keys')
  {
    if |ids| > 0 {
      GatherDependsOnFind(ids[..|ids| - 1], keys, keys');
    }
  }

  /** Neither the order of the keys nor keys of other types matter, as long as no id is listed twice. */
  lemma OrderAndExtraKeysDoNotMatter(t: KeysType, keys: seq<CandidateKey>, keys': seq<CandidateKey>)
    requires DistinctKeyIds(keys) && DistinctKeyIds(keys')
    requires forall k: CandidateKey :: k.id in t.ids ==> (k in keys <==> k in keys')
    ensures MaybeFrom(t, keys) == MaybeFrom(t, keys')
  {
    forall i | 0 <= i < |t.ids| ensures Find(keys, t.ids[i]) == Find(keys', t.ids[i]) {
      SameLookup(t, keys, keys', t.ids[i]);
      SameLookup(t, keys', keys, t.ids[i]);
    }
    GatherDependsOnFind(t.ids, keys, keys');
  }

  lemma SameLookup(t: KeysType, keys: seq<CandidateKey>, keys': seq<CandidateKey>, id: Bytes)
    requires DistinctKeyIds(keys) && DistinctKeyIds(keys') && id in t.ids
    requires forall k: CandidateKey :: k.id in t.ids ==> (k in keys <==> k in keys')
    ensures Find(keys, id).Some? ==> Find(keys', id) == Find(keys, id)
  {
    if Find(keys, id).Some? {
      var bytes := Find(keys, id).value;
      FindIsMembership(keys, id, bytes);
      assert CandidateKey(id, bytes).id in t.ids;
      FindIsMembership(keys', id, bytes);
    }
  }

  // ---------------------------------------------------------------- conversions

  /** Parsed keys of a permissioned candidate: partner chain key and session key fields. */
  datatype ParsedKeys = ParsedKeys(sidechain: Bytes, fields: seq<Bytes>)

  datatype CandidateData = CandidateData(sidechainPublicKey: Bytes, keys: seq<CandidateKey>)

  /** Keys by the text form of their type id; a text is represented by its UTF-8 bytes. */
  datatype StringKeys = StringKeys(partnerChainsKey: Bytes, keys: map<Bytes, Bytes>)

  datatype ParseError = InvalidEcdsaKey | InvalidKeyTypeId(text: Bytes) | InvalidCandidateKeys

  /** Parsed keys to candidate data. */
  function ToCandidateData(t: KeysType, p: ParsedKeys): CandidateData
    requires |p.fields| == |t.ids|
  {
    CandidateData(p.sidechain, seq(|t.ids|, i requires 0 <= i < |t.ids| => CandidateKey(t.ids[i], p.fields[i])))
  }

  /** Collecting keys into a map: a repeated id keeps the last value. */
  function ToMap(keys: seq<CandidateKey>): map<Bytes, Bytes> {
    if |keys| == 0 then map[]
    else ToMap(keys[..|keys| - 1])[keys[|keys| - 1].id := keys[|keys| - 1].bytes]
  }

  /** Candidate data to string keys; `None` is the panic on an id that is not UTF-8. */
  function ToStringKeys(utf8: Bytes -> bool, data: CandidateData): Option<StringKeys> {
    if forall k :: k in data.keys ==> utf8(k.id) then Some(StringKeys(data.sidechainPublicKey, ToMap(data.keys)))
    else None
  }

  /** String keys to a key list, visiting the map in the order of `order`. */
  function ToKeyList(keys: map<Bytes, Bytes>, order: seq<Bytes>): Result<seq<CandidateKey>, ParseError>
    requires forall id :: id in order ==> id in keys
  {
    if |order| == 0 then Ok([])
    else
      var n := |order| - 1;
      match ToKeyList(keys, order[..n])
      case Err(e) => Err(e)
      case Ok(list) =>
        if |order[n]| != KEY_TYPE_ID_LENGTH then Err(InvalidKeyTypeId(order[n]))
        else Ok(list + [CandidateKey(order[n], keys[order[n]])])
  }

  /** `order` visits every key of the map exactly once. */
  ghost predicate Visits(order: seq<Bytes>, keys: map<Bytes, Bytes>) {
    && (forall i, j :: 0 <= i < j < |order| ==> order[i] != order[j])
    && (forall id :: id in order <==> id in keys)
  }

  function Parse(t: KeysType, s: StringKeys, order: seq<Bytes>): Result<ParsedKeys, ParseError>
    requires Visits(order, s.keys)
  {
    if |s.partnerChainsKey| != ECDSA_LENGTH then Err(InvalidEcdsaKey)
    else
      match ToKeyList(s.keys, order)
      case Err(e) => Err(e)
      case Ok(list) =>
        match MaybeFrom(t, list)
        case None => Err(InvalidCandidateKeys)
        case Some(fields) => Ok(ParsedKeys(s.partnerChainsKey, fields))
  }

  /** Conversion to a key list pushes in a loop. */
  method CandidateKeysFromStrings(keys: map<Bytes, Bytes>, order: seq<Bytes>)
    returns (r: Result<seq<CandidateKey>, ParseError>)
    requires forall id :: id in order ==> id in keys
    ensures r == ToKeyList(keys, order)
  {
    var acc: seq<CandidateKey> := [];
    for i := 0 to |order|
      invariant ToKeyList(keys, order[..i]) == Ok(acc)
    {
      assert order[..i + 1][..i] == order[..i];
      if |order[i]| != KEY_TYPE_ID_LENGTH {
        KeyListErrorStays(keys, order, i + 1);
        return Err(InvalidKeyTypeId(order[i]));
      }
      acc := acc + [CandidateKey(order[i], keys[order[i]])];
    }
    assert order[..|order|] == order;
    return Ok(acc);
  }

  lemma {:induction false} KeyListErrorStays(keys: map<Bytes, Bytes>, order: seq<Bytes>, n: nat)
    requires (forall id :: id in order ==> id in keys) && n <= |order| && ToKeyList(keys, order[..n]).Err?
    ensures ToKeyList(keys, order) == ToKeyList(keys, order[..n])
  {
    if n == |order| {
      assert order[..n] == order;
    } else {
      assert order[..|order| - 1][..n] == order[..n];
      KeyListErrorStays(keys, order[..|order| - 1], n);
    }
  }

  lemma {:induction false} ToMapHolds(keys: seq<CandidateKey>)
    requires DistinctKeyIds(keys)
    ensures forall k: CandidateKey :: k in keys <==> k.id in ToMap(keys) && ToMap(keys)[k.id] == k.bytes
  {
    if |keys| > 0 {
      var n := |keys| - 1;
      ToMapHolds(keys[..n]);
      assert keys == keys[..n] + [keys[n]];
      forall k | k in keys[..n] ensures k.id != keys[n].id {
        var i :| 0 <= i < n && keys[..n][i] == k;
        assert keys[i].id != keys[n].id;
      }
    }
  }

  lemma {:induction false} KeyListHolds(keys: map<Bytes, Bytes>, order: seq<Bytes>)
    requires forall id :: id in order ==> id in keys && |id| == KEY_TYPE_ID_LENGTH
    ensures
      var list := ToKeyList(keys, order);
      && list.Ok? && |list.value| == |order|
      && forall i :: 0 <= i < |order| ==> list.value[i] == CandidateKey(order[i], keys[order[i]])
  {
    if |order| > 0 {
      KeyListHolds(keys, order[..|order| - 1]);
    }
  }

  /** The first malformed key type id, in the order of the visit, is reported. */
  lemma {:induction false} KeyListError(keys: map<Bytes, Bytes>, order: seq<Bytes>)
    requires forall id :: id in order ==> id in keys
    ensures
      var r := ToKeyList(keys, order);
      && (r.Err? <==> exists i :: 0 <= i < |order| && |order[i]| != KEY_TYPE_ID_LENGTH)
      && (r.Err? ==> exists i :: 0 <= i < |order| && r.error == InvalidKeyTypeId(order[i]) &&
                                 |order[i]| != KEY_TYPE_ID_LENGTH &&
                                 forall j :: 0 <= j < i ==> |order[j]| == KEY_TYPE_ID_LENGTH)
  {
    if |order| > 0 {
      var n := |order| - 1;
      KeyListError(keys, order[..n]);
      if ToKeyList(keys, order[..n]).Err? {
        var i :| 0 <= i < n && ToKeyList(keys, order[..n]).error == InvalidKeyTypeId(order[..n][i]) &&
                 |order[..n][i]| != KEY_TYPE_ID_LENGTH &&
                 forall j :: 0 <= j < i ==> |order[..n][j]| == KEY_TYPE_ID_LENGTH;
        forall j | 0 <= j < i ensures |order[j]| == KEY_TYPE_ID_LENGTH {
          assert order[j] == order[..n][j];
        }
        assert order[i] == order[..n][i];
      } else {
        forall j | 0 <= j < n ensures |order[j]| == KEY_TYPE_ID_LENGTH {
          assert order[j] == order[..n][j];
        }
      }
    }
  }

  /** Candidate data has a text form if and only if all of its key type ids are text; the partner chain key is kept. */
  lemma TextFormIff(utf8: Bytes -> bool, data: CandidateData)
    ensures
      var s := ToStringKeys(utf8, data);
      && (s.Some? <==> forall i :: 0 <= i < |data.keys| ==> utf8(data.keys[i].id))
      && (s.Some? ==> s.value.partnerChainsKey == data.sidechainPublicKey)
  {
    if i :| 0 <= i < |data.keys| && !utf8(data.keys[i].id) {
      assert data.keys[i] in data.keys;
    }
  }

  /** Parsing checks the partner chain key, then the key type ids, then the keys; a success keeps the partner chain
      key. */
  lemma ParseFailsAs(t: KeysType, s: StringKeys, order: seq<Bytes>)
    requires Visits(order, s.keys)
    ensures
      var r := Parse(t, s, order);
      var ecdsa := |s.partnerChainsKey| == ECDSA_LENGTH;
      var ids := forall id :: id in s.keys ==> |id| == KEY_TYPE_ID_LENGTH;
      && (r == Err(InvalidEcdsaKey) <==> !ecdsa)
      && (r.Err? && r.error.InvalidKeyTypeId? <==> ecdsa && !ids)
      && (r.Ok? ==> ecdsa && ids && r.value.sidechain == s.partnerChainsKey)
  {
    KeyListError(s.keys, order);
    if i :| 0 <= i < |order| && |order[i]| != KEY_TYPE_ID_LENGTH {
      assert order[i] in order;
    }
  }

  /** Parsed keys survive the trip through candidate data and the string-keyed map, in whatever order the map is
      visited, exactly when their encoding fits the bound. */
  lemma RoundTripIffBounded(t: KeysType, utf8: Bytes -> bool, p: ParsedKeys, order: seq<Bytes>)
    requires t.Valid() && t.DistinctIds() && forall i :: 0 <= i < |t.ids| ==> utf8(t.ids[i])
    requires Sized(p.fields, t.sizes) && |p.sidechain| == ECDSA_LENGTH
    requires ToStringKeys(utf8, ToCandidateData(t, p)).Some? ==>
               Visits(order, ToStringKeys(utf8, ToCandidateData(t, p)).value.keys)
    ensures
      var s := ToStringKeys(utf8, ToCandidateData(t, p));
      s.Some? && (Parse(t, s.value, order) == Ok(p) <==> TotalOf(t.sizes) <= MAX_ENCODED_KEYS)
  {
    var data := ToCandidateData(t, p);
    ToMapHolds(data.keys);
    var m := ToMap(data.keys);
    forall id | id in order ensures id in m && |id| == KEY_TYPE_ID_LENGTH {
      assert CandidateKey(id, m[id]) in data.keys;
    }
    KeyListHolds(m, order);
    var list := ToKeyList(m, order).value;
    forall i | 0 <= i < |t.ids| ensures Find(list, t.ids[i]) == Some(p.fields[i]) {
      assert data.keys[i] == CandidateKey(t.ids[i], p.fields[i]);
      assert data.keys[i] in data.keys;
      assert t.ids[i] in order;
      var j :| 0 <= j < |order| && order[j] == t.ids[i];
      assert list[j] == data.keys[i];
      FindIsMembership(list, t.ids[i], p.fields[i]);
    }
    AssembledIffSized(t, list, p.fields);
  }
}
