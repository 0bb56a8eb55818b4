/** Path-based reading and writing of fields in a JSON configuration file. */
module JsonConfig {
  import opened Prelude

  datatype Json =
    | Null
    | Bool(b: bool)
    | Number(n: int)
    | Float(x: real)
    | Text(s: string)
    | Array(items: seq<Json>)
    | Object(fields: map<string, Json>)

  type Path = seq<string>

  /** Neither path leads through the other. */
  ghost predicate Incomparable(p: Path, q: Path) {
    !(p <= q) && !(q <= p)
  }

  // ---------------------------------------------------------------- reading and writing

  function Get(json: Json, path: Path): Option<Json> {
    if |path| == 0 then Some(json)
    else if json.Object? && path[0] in json.fields then Get(json.fields[path[0]], path[1..])
    else None
  }

  /** The fields of an existing object, or no fields: anything else is overwritten on the way to a nested field. */
  function FieldsAt(fields: map<string, Json>, field: string): map<string, Json> {
    if field in fields && fields[field].Object? then fields[field].fields else map[]
  }

  function PutIn(fields: map<string, Json>, path: Path, value: Json): map<string, Json>
    requires |path| > 0
    decreases path
  {
    if |path| == 1 then fields[path[0] := value]
    else fields[path[0] := Object(PutIn(FieldsAt(fields, path[0]), path[1..], value))]
  }

  /** Writing into a whole document; `None` is the panic on indexing a root that is neither an object nor null. */
  function Put(json: Json, path: Path, value: Json): Option<Json> {
    if |path| == 0 then Some(value)
    else
      match json
      case Object(fields) => Some(Object(PutIn(fields, path, value)))
      case Null => Some(Object(PutIn(map[], path, value)))
      case _ => None
  }

  /** The reading loop: a cursor that is reassigned field by field. */
  method Extract(json: Json, path: Path) returns (r: Option<Json>)
    ensures r == Get(json, path)
  {
    var cursor: Option<Json> := Some(json);
    for i := 0 to |path|
      invariant Get(json, path) == if cursor.Some? then Get(cursor.value, path[i..]) else None
    {
      if cursor.None? {
        return None;
      }
      assert path[i..][0] == path[i] && path[i..][1..] == path[i + 1..];
      var inner := cursor.value;
      cursor := if inner.Object? && path[i] in inner.fields then Some(inner.fields[path[i]]) else None;
    }
    assert path[|path|..] == [];
    return cursor;
  }

  /** Assignment through the cursor: replaces an existing value and creates nothing. */
  function ReplaceAt(json: Json, path: Path, value: Json): Json
    requires Get(json, path).Some?
    decreases path
  {
    if |path| == 0 then value
    else Object(json.fields[path[0] := ReplaceAt(json.fields[path[0]], path[1..], value)])
  }

  /** Assignment to a field of one value: null turns into an object, any other non-object panics. */
  function SetField(json: Json, field: string, value: Json): Option<Json> {
    match json
    case Object(fields) => Some(Object(fields[field := value]))
    case Null => Some(Object(map[field := value]))
    case _ => None
  }

  /** The writing loop. The mutable cursor stands at `path[..i]`; each iteration makes sure that the field below it
      is an object and moves down, and the value finally replaces what the cursor points at. */
  method SaveToFile(file: Option<Json>, path: Path, value: Json) returns (r: Option<Json>)
    ensures r == Put(if file.Some? then file.value else Object(map[]), path, value)
    ensures r.Some? ==> Get(r.value, path) == Some(value)
  {
    var json := if file.Some? then file.value else Object(map[]);
    ghost var root := json;
    for i := 0 to |path|
      invariant Put(json, path, value) == Put(root, path, value)
      invariant Get(json, path[..i]).Some?
      invariant i > 0 ==> json.Object? && Get(json, path[..i]).value.Object?
    {
      var head := Get(json, path[..i]).value;
      var existing := Get(head, [path[i]]);
      var child := if existing.Some? && existing.value.Object? then existing.value else Object(map[]);
      var written := SetField(head, path[i], child);
      if written.None? {
        return None;
      }
      CursorStep(json, path, i, value);
      json := ReplaceAt(json, path[..i], written.value);
    }
    assert path[..|path|] == path;
    ReplaceIsPut(json, path, value);
    r := Some(ReplaceAt(json, path, value));
    ReadAfterWrite(root, path, value);
  }

  /** Where the path already leads to a value, replacing it is the nested write. */
  lemma {:induction false} ReplaceIsPut(json: Json, path: Path, value: Json)
    requires Get(json, path).Some?
    ensures Put(json, path, value) == Some(ReplaceAt(json, path, value))
    decreases path
  {
    if |path| > 0 {
      ReplaceIsPut(json.fields[path[0]], path[1..], value);
    }
  }

  /** Assigning a field of the object at the cursor is a nested write of that field. */
  lemma {:induction false} FieldWriteIsPutIn(json: Json, path: Path, i: nat, child: Json)
    requires i < |path| && Get(json, path[..i]).Some? && Get(json, path[..i]).value.Object? && json.Object?
    ensures
      ReplaceAt(json, path[..i], SetField(Get(json, path[..i]).value, path[i], child).value) ==
      Object(PutIn(json.fields, path[..i + 1], child))
    decreases i
  {
    if i > 0 {
      assert path[..i][1..] == path[1..][..i - 1] && path[..i + 1][1..] == path[1..][..i];
      FieldWriteIsPutIn(json.fields[path[0]], path[1..], i - 1, child);
    }
  }

  lemma {:induction false} GetBelow(json: Json, path: Path, i: nat)
    requires i < |path| && Get(json, path[..i]).Some?
    ensures Get(Get(json, path[..i]).value, [path[i]]) == Get(json, path[..i + 1])
    decreases i
  {
    if i > 0 {
      assert path[..i][1..] == path[1..][..i - 1] && path[..i + 1][1..] == path[1..][..i];
      GetBelow(json.fields[path[0]], path[1..], i - 1);
    }
  }

  /** One iteration moves the cursor down to an object and keeps the outcome of the whole write. */
  lemma CursorStep(json: Json, path: Path, i: nat, value: Json)
    requires i < |path| && Get(json, path[..i]).Some? && (i > 0 ==> json.Object? && Get(json, path[..i]).value.Object?)
    ensures
      var head := Get(json, path[..i]).value;
      var existing := Get(head, [path[i]]);
      var child := if existing.Some? && existing.value.Object? then existing.value else Object(map[]);
      var written := SetField(head, path[i], child);
      if written.None? then Put(json, path, value).None?
      else
        var json' := ReplaceAt(json, path[..i], written.value);
        && json'.Object? && Get(json', path[..i + 1]) == Some(child)
        && Put(json', path, value) == Put(json, path, value)
  {
    GetBelow(json, path, i);
    var existing := Get(json, path[..i + 1]);
    var child := if existing.Some? && existing.value.Object? then existing.value else Object(map[]);
    if json.Object? {
      FieldWriteIsPutIn(json, path, i, child);
      GetAfterPutIn(json.fields, path[..i + 1], child);
      PrepareKeeps(json.fields, path, i + 1, value);
    } else if json.Null? {
      assert path[..1] == [path[0]];
      PrepareKeeps(map[], path, 1, value);
    }
  }

  lemma {:induction false} GetAfterPutIn(fields: map<string, Json>, path: Path, value: Json)
    requires |path| > 0
    ensures Get(Object(PutIn(fields, path, value)), path) == Some(value)
    decreases path
  {
    if |path| > 1 {
      GetAfterPutIn(FieldsAt(fields, path[0]), path[1..], value);
    }
  }

  /** Turning what lies on the way into an object first does not change the result of a write. */
  lemma {:induction false} PrepareKeeps(fields: map<string, Json>, path: Path, k: nat, value: Json)
    requires 0 < k <= |path|
    ensures
      var existing := Get(Object(fields), path[..k]);
      var child := if existing.Some? && existing.value.Object? then existing.value else Object(map[]);
      PutIn(PutIn(fields, path[..k], child), path, value) == PutIn(fields, path, value)
    decreases path
  {
    if k > 1 {
      assert path[..k][1..] == path[1..][..k - 1];
      PrepareKeeps(FieldsAt(fields, path[0]), path[1..], k - 1, value);
      if !(path[0] in fields && fields[path[0]].Object?) {
        assert Get(Object(fields), path[..k]).None?;
        assert Get(Object(map[]), path[1..][..k - 1]).None?;
      }
    }
  }

  /** Loading a typed field: absent files, absent fields and fields of the wrong type all load as nothing. */
  function Load<T>(file: Option<Json>, path: Path, decode: Json -> Option<T>): Option<T> {
    if file.None? then None
    else
      match Get(file.value, path)
      case None => None
      case Some(json) => decode(json)
  }

  /** `save_if_empty`: keeps a field that loads, and otherwise writes the given value. The file afterwards loads to the
      returned value exactly when it did before or the value survives its own encoding; `None` is the panic of the
      write. */
  method SaveIfEmpty<T>(file: Option<Json>, path: Path, value: T, encode: T -> Json, decode: Json -> Option<T>)
    returns (r: Option<(T, Option<Json>)>)
    ensures Load(file, path, decode).Some? ==> r == Some((Load(file, path, decode).value, file))
    ensures Load(file, path, decode).None? && r.Some? ==> r.value.0 == value && r.value.1.Some?
    ensures r.Some? ==> (Load(r.value.1, path, decode) == Some(r.value.0) <==>
                         Load(file, path, decode).Some? || decode(encode(value)) == Some(value))
    ensures r.None? <==> file.Some? && Load(file, path, decode).None? && Put(file.value, path, encode(value)).None?
  {
    var loaded := Load(file, path, decode);
    if loaded.Some? {
      return Some((loaded.value, file));
    }
    var saved := SaveToFile(file, path, encode(value));
    if saved.None? {
      return None;
    }
    return Some((value, saved));
  }

  // ---------------------------------------------------------------- lens laws

  /** A written value is read back. */
  lemma ReadAfterWrite(json: Json, path: Path, value: Json)
    requires Put(json, path, value).Some?
    ensures Get(Put(json, path, value).value, path) == Some(value)
  {
    if |path| > 0 {
      GetAfterPutIn(if json.Object? then json.fields else map[], path, value);
    }
  }

  /** Writing fails exactly on a non-empty path into a root that is neither an object nor null. */
  lemma WriteFailsIff(json: Json, path: Path, value: Json)
    ensures Put(json, path, value).None? <==> |path| > 0 && !json.Object? && !json.Null?
  {
  }

  lemma {:induction false} OverwriteIn(fields: map<string, Json>, path: Path, v: Json, w: Json)
    requires |path| > 0
    ensures PutIn(PutIn(fields, path, v), path, w) == PutIn(fields, path, w)
    decreases path
  {
    if |path| > 1 {
      OverwriteIn(FieldsAt(fields, path[0]), path[1..], v, w);
    }
  }

  /** The last write wins and leaves no trace of the first. */
  lemma LastWriteWins(json: Json, path: Path, v: Json, w: Json)
    requires Put(json, path, v).Some?
    ensures Put(Put(json, path, v).value, path, w) == Put(json, path, w)
  {
    if |path| > 0 {
      OverwriteIn(if json.Object? then json.fields else map[], path, v, w);
    }
  }

  lemma TailsIncomparable(p: Path, q: Path)
    requires Incomparable(p, q)
    ensures |p| > 0 && |q| > 0
    ensures p[0] == q[0] ==> |p| > 1 && |q| > 1 && Incomparable(p[1..], q[1..])
  {
    if p[0] == q[0] {
      assert p == [p[0]] + p[1..] && q == [q[0]] + q[1..];
    }
  }

  lemma {:induction false} OtherPathIn(fields: map<string, Json>, p: Path, q: Path, v: Json)
    requires Incomparable(p, q)
    ensures Get(Object(PutIn(fields, p, v)), q) == Get(Object(fields), q)
    decreases p
  {
    TailsIncomparable(p, q);
    if p[0] == q[0] {
      OtherPathIn(FieldsAt(fields, p[0]), p[1..], q[1..], v);
      if !(p[0] in fields && fields[p[0]].Object?) {
        assert Get(Object(fields), q).None?;
      }
    }
  }

  /** A write does not change what is read at an incomparable path, even when it replaces a non-object on the way. */
  lemma WritesAreLocal(json: Json, p: Path, q: Path, v: Json)
    requires Incomparable(p, q) && Put(json, p, v).Some?
    ensures Get(Put(json, p, v).value, q) == Get(json, q)
  {
    TailsIncomparable(p, q);
    OtherPathIn(if json.Object? then json.fields else map[], p, q, v);
  }

  lemma UpdatesCommute(fields: map<string, Json>, a: string, b: string, x: Json, y: Json)
    requires a != b
    ensures fields[a := x][b := y] == fields[b := y][a := x]
  {
  }

  /** A nested write only looks at the fields below the first step. */
  lemma PutInUpdates(fields: map<string, Json>, changed: map<string, Json>, path: Path, value: Json)
    requires |path| > 0 && FieldsAt(fields, path[0]) == FieldsAt(changed, path[0])
    ensures
      var below := PutIn(fields, path, value)[path[0]];
      && PutIn(fields, path, value) == fields[path[0] := below]
      && PutIn(changed, path, value) == changed[path[0] := below]
  {
  }

  lemma PutTwiceBelow(fields: map<string, Json>, p: Path, q: Path, v: Json, w: Json)
    requires |p| > 1 && |q| > 1 && p[0] == q[0]
    ensures PutIn(PutIn(fields, p, v), q, w) ==
            fields[p[0] := Object(PutIn(PutIn(FieldsAt(fields, p[0]), p[1..], v), q[1..], w))]
  {
  }

  lemma CommuteApart(fields: map<string, Json>, p: Path, q: Path, v: Json, w: Json)
    requires |p| > 0 && |q| > 0 && p[0] != q[0]
    ensures PutIn(PutIn(fields, p, v), q, w) == PutIn(PutIn(fields, q, w), p, v)
  {
    var x, y := PutIn(fields, p, v)[p[0]], PutIn(fields, q, w)[q[0]];
    PutInUpdates(fields, fields[q[0] := y], p, v);
    PutInUpdates(fields, fields[p[0] := x], q, w);
    UpdatesCommute(fields, p[0], q[0], x, y);
  }

  lemma {:induction false} CommuteIn(fields: map<string, Json>, p: Path, q: Path, v: Json, w: Json)
    requires Incomparable(p, q) && |p| > 0 && |q| > 0
    ensures PutIn(PutIn(fields, p, v), q, w) == PutIn(PutIn(fields, q, w), p, v)
    decreases p
  {
    TailsIncomparable(p, q);
    if p[0] == q[0] {
      CommuteIn(FieldsAt(fields, p[0]), p[1..], q[1..], v, w);
      PutTwiceBelow(fields, p, q, v, w);
      PutTwiceBelow(fields, q, p, w, v);
    } else {
      CommuteApart(fields, p, q, v, w);
    }
  }

  /** Writes to incomparable paths commute. */
  lemma WritesCommute(json: Json, p: Path, q: Path, v: Json, w: Json)
    requires Incomparable(p, q) && Put(json, p, v).Some? && Put(json, q, w).Some?
    ensures Put(Put(json, p, v).value, q, w) == Put(Put(json, q, w).value, p, v)
  {
    TailsIncomparable(p, q);
    CommuteIn(if json.Object? then json.fields else map[], p, q, v, w);
  }

  // ---------------------------------------------------------------- several fields

  datatype Write = Write(path: Path, value: Json)

  function PutAll(json: Json, writes: seq<Write>): Option<Json> {
    if |writes| == 0 then Some(json)
    else
      match PutAll(json, writes[..|writes| - 1])
      case None => None
      case Some(j) => Put(j, writes[|writes| - 1].path, writes[|writes| - 1].value)
  }

  ghost predicate PairwiseIncomparable(writes: seq<Write>) {
    forall i, j :: 0 <= i < j < |writes| ==> Incomparable(writes[j].path, writes[i].path)
  }

  /** A group of writes to pairwise incomparable paths is readable back as a whole. */
  lemma {:induction false} AllWritesReadable(json: Json, writes: seq<Write>, i: nat)
    requires PairwiseIncomparable(writes) && i < |writes| && PutAll(json, writes).Some?
    ensures Get(PutAll(json, writes).value, writes[i].path) == Some(writes[i].value)
  {
    var n := |writes| - 1;
    var before := PutAll(json, writes[..n]).value;
    if i == n {
      ReadAfterWrite(before, writes[n].path, writes[n].value);
    } else {
      AllWritesReadable(json, writes[..n], i);
      WritesAreLocal(before, writes[n].path, writes[i].path, writes[n].value);
    }
  }

  lemma {:induction false} AllWritesSucceed(json: Json, writes: seq<Write>)
    requires json.Object? || json.Null?
    requires forall i :: 0 <= i < |writes| ==> |writes[i].path| > 0
    ensures PutAll(json, writes).Some?
    ensures PutAll(json, writes).value.Object? || PutAll(json, writes).value.Null?
  {
    if |writes| > 0 {
      AllWritesSucceed(json, writes[..|writes| - 1]);
    }
  }

  // ---------------------------------------------------------------- Cardano parameters

  /** A 64-bit float: JSON has no representation for the non-finite ones. */
  datatype F64 = Finite(x: real) | NonFinite

  function EncodeF64(f: F64): Json {
    match f
    case Finite(x) => Float(x)
    case NonFinite => Null
  }

  function DecodeF64(json: Json): Option<F64> {
    match json
    case Float(x) => Some(Finite(x))
    case Number(n) => Some(Finite(n as real))
    case _ => None
  }

  function DecodeUint(json: Json, max: nat): Option<nat> {
    if json.Number? && 0 <= json.n <= max then Some(json.n) else None
  }

  const U64_MAX: nat := 0xFFFF_FFFF_FFFF_FFFF

  datatype CardanoParameters = CardanoParameters(
    securityParameter: nat,
    activeSlotsCoeff: F64,
    firstEpochNumber: nat,
    firstSlotNumber: nat,
    epochDurationMillis: nat,
    firstEpochTimestampMillis: nat,
    slotDurationMillis: nat)
  {
    predicate Valid() {
      && securityParameter <= U64_MAX && firstEpochNumber <= MAX_U32 && firstSlotNumber <= U64_MAX
      && epochDurationMillis <= U64_MAX && firstEpochTimestampMillis <= U64_MAX && slotDurationMillis <= U64_MAX
    }
  }

  function CardanoPath(field: string): Path {
    ["cardano", field]
  }

  /** The writes of `CardanoParameters::save`, in order. */
  function CardanoWrites(p: CardanoParameters): seq<Write> {
    [Write(CardanoPath("security_parameter"), Number(p.securityParameter)),
     Write(CardanoPath("active_slots_coeff"), EncodeF64(p.activeSlotsCoeff)),
     Write(CardanoPath("first_epoch_number"), Number(p.firstEpochNumber)),
     Write(CardanoPath("first_slot_number"), Number(p.firstSlotNumber)),
     Write(CardanoPath("epoch_duration_millis"), Number(p.epochDurationMillis)),
     Write(CardanoPath("first_epoch_timestamp_millis"), Number(p.firstEpochTimestampMillis)),
     Write(CardanoPath("slot_duration_millis"), Number(p.slotDurationMillis))]
  }

  function Field(json: Json, field: string): Json {
    var r := Get(json, CardanoPath(field));
    if r.Some? then r.value else Null
  }

  /** Reading all seven fields; `None` if one is missing or has the wrong type. */
  function LoadCardano(json: Json): Option<CardanoParameters> {
    var k := DecodeUint(Field(json, "security_parameter"), U64_MAX);
    var f := DecodeF64(Field(json, "active_slots_coeff"));
    var e := DecodeUint(Field(json, "first_epoch_number"), MAX_U32);
    var s := DecodeUint(Field(json, "first_slot_number"), U64_MAX);
    var d := DecodeUint(Field(json, "epoch_duration_millis"), U64_MAX);
    var t := DecodeUint(Field(json, "first_epoch_timestamp_millis"), U64_MAX);
    var l := DecodeUint(Field(json, "slot_duration_millis"), U64_MAX);
    if k.Some? && f.Some? && e.Some? && s.Some? && d.Some? && t.Some? && l.Some?
    then Some(CardanoParameters(k.value, f.value, e.value, s.value, d.value, t.value, l.value))
    else None
  }

  lemma DistinctFieldsIncomparable(f: string, g: string)
    requires f != g
    ensures Incomparable(CardanoPath(f), CardanoPath(g))
  {
    assert CardanoPath(f)[1] != CardanoPath(g)[1];
  }

  lemma CardanoFieldsDiffer(p: CardanoParameters)
    ensures PairwiseIncomparable(CardanoWrites(p))
  {
    var writes := CardanoWrites(p);
    forall i, j | 0 <= i < j < |writes| ensures Incomparable(writes[j].path, writes[i].path) {
      DistinctFieldsIncomparable(writes[j].path[1], writes[i].path[1]);
    }
  }

  lemma SavedField(json: Json, writes: seq<Write>, i: nat, field: string)
    requires PairwiseIncomparable(writes) && i < |writes| && PutAll(json, writes).Some?
    requires writes[i].path == CardanoPath(field)
    ensures Get(PutAll(json, writes).value, ["cardano", field]) == Some(writes[i].value)
  {
    AllWritesReadable(json, writes, i);
  }

  /** What a file contains when all seven fields of `p` have been written to it. */
  ghost predicate Holds(json: Json, p: CardanoParameters) {
    && Get(json, ["cardano", "security_parameter"]) == Some(Number(p.securityParameter))
    && Get(json, ["cardano", "active_slots_coeff"]) == Some(EncodeF64(p.activeSlotsCoeff))
    && Get(json, ["cardano", "first_epoch_number"]) == Some(Number(p.firstEpochNumber))
    && Get(json, ["cardano", "first_slot_number"]) == Some(Number(p.firstSlotNumber))
    && Get(json, ["cardano", "epoch_duration_millis"]) == Some(Number(p.epochDurationMillis))
    && Get(json, ["cardano", "first_epoch_timestamp_millis"]) == Some(Number(p.firstEpochTimestampMillis))
    && Get(json, ["cardano", "slot_duration_millis"]) == Some(Number(p.slotDurationMillis))
  }

  lemma SavedFileHolds(json: Json, p: CardanoParameters, writes: seq<Write>)
    requires writes == CardanoWrites(p) && PutAll(json, writes).Some?
    ensures Holds(PutAll(json, writes).value, p)
  {
    CardanoFieldsDiffer(p);
    SavedField(json, writes, 0, "security_parameter");
    SavedField(json, writes, 1, "active_slots_coeff");
    SavedField(json, writes, 2, "first_epoch_number");
    SavedField(json, writes, 3, "first_slot_number");
    SavedField(json, writes, 4, "epoch_duration_millis");
    SavedField(json, writes, 5, "first_epoch_timestamp_millis");
    SavedField(json, writes, 6, "slot_duration_millis");
  }

  /** Saved parameters are read back as they were, from any object file, exactly when the coefficient is finite. */
  lemma CardanoParametersRoundTrip(json: Json, p: CardanoParameters)
    requires p.Valid() && (json.Object? || json.Null?)
    ensures PutAll(json, CardanoWrites(p)).Some? && Holds(PutAll(json, CardanoWrites(p)).value, p)
    ensures LoadCardano(PutAll(json, CardanoWrites(p)).value) == Some(p) <==> p.activeSlotsCoeff.Finite?
  {
    AllWritesSucceed(json, CardanoWrites(p));
    SavedFileHolds(json, p, CardanoWrites(p));
    HeldParametersLoad(PutAll(json, CardanoWrites(p)).value, p);
  }

  /** Only parameters within their types load. */
  lemma LoadedParametersAreValid(json: Json)
    requires LoadCardano(json).Some?
    ensures LoadCardano(json).value.Valid() && LoadCardano(json).value.activeSlotsCoeff.Finite?
  {
  }

  lemma HeldParametersLoad(json: Json, p: CardanoParameters)
    requires p.Valid() && Holds(json, p)
    ensures LoadCardano(json) == Some(p) <==> p.activeSlotsCoeff.Finite?
  {
  }
}
