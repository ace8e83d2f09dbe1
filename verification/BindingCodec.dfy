/**
 bindings/generator: what the emitted encoders and decoders mean, per schema.
 A Go value is a tree; Err stands for an error return or a panic.  Addresses are
 taken decoded from their strkey text.
 */
module BindingCodec {
  import opened Wrappers
  import opened Words
  import opened Xdr
  import opened ScvalInts

  // ---- schemas -----------------------------------------------------------------------

  datatype Ty =
    | TU64 | TU32 | TU128 | TI128 | TI256 | TBool | TAddress | TBytes | TString | TSymbol | TOptAddress
    | TBytesN(n: nat)
    | TVec(elem: Ty)
    | TNamed(name: string)

  datatype Field = Field(name: string, ty: Ty)
  datatype Kind = Unit | Tuple | Struct
  datatype Variant = Variant(name: string, kind: Kind, explicit: bool, payload: seq<Ty>)
  datatype Decl = StructDecl(fields: seq<Field>) | EnumDecl(variants: seq<Variant>)

  type Schema = map<string, Decl>

  // Integer representation: some variant, and all of them unit with an explicit
  // discriminant.
  predicate IsIntRepr(variants: seq<Variant>)
  {
    |variants| > 0 && forall v | v in variants :: v.kind.Unit? && v.explicit
  }

  // ---- values -------------------------------------------------------------------------

  datatype Strkey = AccountKey(key: Hash32) | ContractKey(key: Hash32)

  // Zero: a field a decoder left alone.  A union has one pointer per variant.
  datatype Val =
    | VU64(u64: uint64) | VU32(u32: uint32) | VU128(u128: UInt128Parts) | VI128(i128: int) | VI256(i256: int)
    | VBool(b: bool)
    | VAddress(address: Strkey) | VBytes(bytes: seq<byte>) | VString(str: string) | VSymbol(sym: string)
    | VOptAddress(option: Option<Strkey>)
    | VVec(items: seq<Val>)
    | VStruct(fields: seq<Val>)
    | VInt(discriminant: uint32)
    | VUnion(slots: seq<Slot>)
    | Zero

  datatype Slot = Unset | Set(payload: seq<Val>)

  // ---- scalars --------------------------------------------------------------------------

  function AddressToScVal(a: Strkey): ScVal
  {
    ScvAddress(Some(match a
                    case AccountKey(k) => AccountAddress(Some(k))
                    case ContractKey(k) => ContractAddress(Some(k))))
  }

  function AddressFromScVal(x: ScVal): Result<Strkey, string>
  {
    match x
    case ScvAddress(Some(AccountAddress(Some(k)))) => Ok(AccountKey(k))
    case ScvAddress(Some(ContractAddress(Some(k)))) => Ok(ContractKey(k))
    case _ => Err("not a supported address")
  }

  function EncodeScalar(ty: Ty, v: Val): Result<ScVal, string>
  {
    match (ty, v)
    case (TU64, VU64(u)) => Ok(ScvU64(Some(u)))
    case (TU32, VU32(u)) => Ok(ScvU32(Some(u)))
    case (TU128, VU128(p)) => Ok(ScvU128(Some(p)))
    case (TI128, VI128(i)) => I128ToScVal(Some(i))
    case (TI256, VI256(i)) => I256ToScVal(Some(i))
    case (TBool, VBool(b)) => Ok(ScvBool(Some(b)))
    case (TAddress, VAddress(a)) => Ok(AddressToScVal(a))
    case (TBytes, VBytes(b)) => Ok(ScvBytes(Some(b)))
    case (TString, VString(s)) => Ok(ScvString(Some(s)))
    case (TSymbol, VSymbol(s)) => Ok(ScvSymbol(Some(s)))
    case (TOptAddress, VOptAddress(o)) => Ok(if o.None? then ScvVoid else AddressToScVal(o.value))
    case (TBytesN(_), VBytes(b)) => Ok(ScvBytes(Some(b)))
    case _ => Err("does not compile")
  }

  function DecodeScalar(ty: Ty, x: ScVal): Result<Val, string>
  {
    match (ty, x)
    case (TU64, ScvU64(Some(u))) => Ok(VU64(u))
    case (TU32, ScvU32(Some(u))) => Ok(VU32(u))
    case (TU128, ScvU128(Some(p))) => Ok(VU128(p))
    case (TI128, ScvI128(_)) => (match I128FromScVal(x) case Ok(i) => Ok(VI128(i)) case Err(e) => Err(e))
    case (TI256, ScvI256(_)) => (match I256FromScVal(x) case Ok(i) => Ok(VI256(i)) case Err(e) => Err(e))
    case (TBool, ScvBool(Some(b))) => Ok(VBool(b))
    case (TAddress, ScvAddress(_)) => (match AddressFromScVal(x) case Ok(a) => Ok(VAddress(a)) case Err(e) => Err(e))
    case (TBytes, ScvBytes(Some(b))) => Ok(VBytes(b))
    case (TString, ScvString(Some(s))) => Ok(VString(s))
    case (TSymbol, ScvSymbol(Some(s))) => Ok(VSymbol(s))
    case (TOptAddress, ScvVoid) => Ok(VOptAddress(None))
    case (TOptAddress, ScvAddress(_)) =>
      (match AddressFromScVal(x) case Ok(a) => Ok(VOptAddress(Some(a))) case Err(e) => Err(e))
    case (TBytesN(n), ScvBytes(Some(b))) => if |b| == n then Ok(VBytes(b)) else Err("wrong length")
    case _ => Err("wrong type")
  }

  // ---- struct maps, sorted by key -----------------------------------------------------------

  datatype NamedVal = NamedVal(name: string, val: ScVal)

  // Lexicographic by code unit.
  predicate AtMost(a: string, b: string)
  {
    a == [] || (b != [] && (a[0] < b[0] || (a[0] == b[0] && AtMost(a[1..], b[1..]))))
  }

  function Insert(p: NamedVal, sorted: seq<NamedVal>): seq<NamedVal>
  {
    if sorted == [] || AtMost(p.name, sorted[0].name) then [p] + sorted else [sorted[0]] + Insert(p, sorted[1..])
  }

  function SortByName(pairs: seq<NamedVal>): seq<NamedVal>
  {
    if pairs == [] then [] else Insert(pairs[0], SortByName(pairs[1..]))
  }

  function Pairs(fields: seq<Field>, items: seq<ScVal>): (r: seq<NamedVal>)
    requires |fields| == |items|
    ensures |r| == |fields| && forall i | 0 <= i < |r| :: r[i] == NamedVal(fields[i].name, items[i])
  {
    seq(|fields|, i requires 0 <= i < |fields| => NamedVal(fields[i].name, items[i]))
  }

  function EntriesOf(pairs: seq<NamedVal>): seq<MapEntry>
  {
    seq(|pairs|, i requires 0 <= i < |pairs| => MapEntry(ScvSymbol(Some(pairs[i].name)), pairs[i].val))
  }

  function TypesOf(fields: seq<Field>): (r: seq<Ty>)
    ensures |r| == |fields| && forall i | 0 <= i < |r| :: r[i] == fields[i].ty
  {
    seq(|fields|, i requires 0 <= i < |fields| => fields[i].ty)
  }

  function Repeat(ty: Ty, n: nat): (r: seq<Ty>)
    ensures |r| == n && forall i | 0 <= i < n :: r[i] == ty
  {
    seq(n, _ => ty)
  }

  // ---- the emitted encoders -------------------------------------------------------------------

  function CountSet(slots: seq<Slot>): nat
  {
    if slots == [] then 0 else (if slots[0].Set? then 1 else 0) + CountSet(slots[1..])
  }

  function Encode(s: Schema, ty: Ty, v: Val): Result<ScVal, string>
    decreases v
  {
    match ty
    case TVec(elem) =>
      if !v.VVec? then Err("does not compile")
      else
        (match EncodeAll(s, Repeat(elem, |v.items|), v.items)
         case Err(e) => Err(e)
         case Ok(items) => Ok(ScvVec(Items(items))))
    case TNamed(name) =>
      if name !in s then Err("does not compile")
      else
        (match s[name]
         case StructDecl(fields) =>
           if !v.VStruct? || |v.fields| != |fields| then Err("does not compile")
           else
             (match EncodeAll(s, TypesOf(fields), v.fields)
              case Err(e) => Err(e)
              case Ok(items) => Ok(ScvMap(Entries(EntriesOf(SortByName(Pairs(fields, items)))))))
         case EnumDecl(variants) =>
           if IsIntRepr(variants) then if v.VInt? then Ok(ScvU32(Some(v.discriminant))) else Err("does not compile")
           else if !v.VUnion? || |v.slots| != |variants| then Err("does not compile")
           else if CountSet(v.slots) != 1 then Err("expected exactly one variant set")
           else EncodeSlots(s, variants, v.slots))
    case _ => EncodeScalar(ty, v)
  }

  function EncodeAll(s: Schema, tys: seq<Ty>, vs: seq<Val>): (r: Result<seq<ScVal>, string>)
    requires |tys| == |vs|
    ensures r.Ok? ==> |r.value| == |vs|
    decreases vs
  {
    if vs == [] then Ok([])
    else
      match Encode(s, tys[0], vs[0])
      case Err(e) => Err(e)
      case Ok(head) =>
        match EncodeAll(s, tys[1..], vs[1..])
        case Err(e) => Err(e)
        case Ok(tail) => Ok([head] + tail)
  }

  // The first variant whose pointer is set.
  function EncodeSlots(s: Schema, variants: seq<Variant>, slots: seq<Slot>): Result<ScVal, string>
    requires |variants| == |slots|
    decreases slots
  {
    if slots == [] then Err("unreachable")
    else if slots[0].Set? then EncodeSlot(s, variants[0], slots[0])
    else EncodeSlots(s, variants[1..], slots[1..])
  }

  function EncodeSlot(s: Schema, variant: Variant, slot: Slot): Result<ScVal, string>
    requires slot.Set?
    decreases slot
  {
    if |slot.payload| != |variant.payload| then Err("does not compile")
    else
      match EncodeAll(s, variant.payload, slot.payload)
      case Err(e) => Err(e)
      case Ok(items) => Ok(ScvVec(Items([ScvSymbol(Some(variant.name))] + items)))
  }

  // ---- the emitted decoders ----------------------------------------------------------------------

  function Find(names: seq<string>, name: string): (k: nat)
    ensures k <= |names| && (k < |names| ==> names[k] == name) && forall i | 0 <= i < k :: names[i] != name
  {
    if names == [] || names[0] == name then 0
    else
      assert forall i | 0 < i < |names| :: names[i] == names[1..][i - 1];
      1 + Find(names[1..], name)
  }

  function FieldNames(fields: seq<Field>): (r: seq<string>)
    ensures |r| == |fields| && forall i | 0 <= i < |r| :: r[i] == fields[i].name
  {
    seq(|fields|, i requires 0 <= i < |fields| => fields[i].name)
  }

  function VariantNames(variants: seq<Variant>): (r: seq<string>)
    ensures |r| == |variants| && forall i | 0 <= i < |r| :: r[i] == variants[i].name
  {
    seq(|variants|, i requires 0 <= i < |variants| => variants[i].name)
  }

  function Decode(s: Schema, ty: Ty, x: ScVal): Result<Val, string>
    decreases x
  {
    match ty
    case TVec(elem) => if x.ScvVec? then DecodeVec(s, elem, x.vec) else Err("not a vec")
    case TNamed(name) =>
      if name !in s then Err("does not compile")
      else
        (match s[name]
         case StructDecl(fields) => if x.ScvMap? then DecodeMap(s, fields, x.entries) else Err("not a map type")
         case EnumDecl(variants) =>
           if IsIntRepr(variants) then
             (match x case ScvU32(Some(u)) => Ok(VInt(u)) case _ => Err("expected u32"))
           else if x.ScvVec? then DecodeUnion(s, variants, x.vec) else Err("expected vec"))
    case _ => DecodeScalar(ty, x)
  }

  function DecodeAll(s: Schema, tys: seq<Ty>, items: seq<ScVal>): Result<seq<Val>, string>
    requires |tys| == |items|
    decreases items
  {
    if items == [] then Ok([])
    else
      match Decode(s, tys[0], items[0])
      case Err(e) => Err(e)
      case Ok(head) =>
        match DecodeAll(s, tys[1..], items[1..])
        case Err(e) => Err(e)
        case Ok(tail) => Ok([head] + tail)
  }

  function DecodeVec(s: Schema, elem: Ty, arm: VecArm): Result<Val, string>
    decreases arm
  {
    if !arm.Items? then Err("not a vec")
    else
      match DecodeAll(s, Repeat(elem, |arm.items|), arm.items)
      case Err(e) => Err(e)
      case Ok(vs) => Ok(VVec(vs))
  }

  function DecodeUnion(s: Schema, variants: seq<Variant>, arm: VecArm): Result<Val, string>
    decreases arm
  {
    if !arm.Items? || |arm.items| < 1 then Err("expected a non-empty vec")
    else
      match arm.items[0]
      case ScvSymbol(Some(tag)) =>
        (var k := Find(VariantNames(variants), tag);
         if k == |variants| then Err("unknown variant")
         else if |arm.items| != 1 + |variants[k].payload| then Err("wrong number of elements")
         else
           (match DecodeAll(s, variants[k].payload, arm.items[1..])
            case Err(e) => Err(e)
            case Ok(vs) => Ok(VUnion(OneSlot(|variants|, k, vs)))))
      case _ => Err("variant tag is not a symbol")
  }

  function OneSlot(n: nat, k: nat, payload: seq<Val>): seq<Slot>
  {
    seq(n, i => if i == k then Set(payload) else Unset)
  }

  // Entries whose key is not a symbol, or not a field, are skipped.
  function DecodeMap(s: Schema, fields: seq<Field>, arm: MapArm): Result<Val, string>
    decreases arm
  {
    if !arm.Entries? then Err("not a map type")
    else
      match DecodeFields(s, fields, arm.entries, seq(|fields|, _ => Zero))
      case Err(e) => Err(e)
      case Ok(vs) => Ok(VStruct(vs))
  }

  function DecodeFields(s: Schema, fields: seq<Field>, entries: seq<MapEntry>, result: seq<Val>)
    : Result<seq<Val>, string>
    requires |result| == |fields|
    decreases entries
  {
    if entries == [] then Ok(result)
    else
      match DecodeEntry(s, fields, entries[0], result)
      case Err(e) => Err(e)
      case Ok(next) => DecodeFields(s, fields, entries[1..], next)
  }

  function DecodeEntry(s: Schema, fields: seq<Field>, entry: MapEntry, result: seq<Val>): (r: Result<seq<Val>, string>)
    requires |result| == |fields|
    ensures r.Ok? ==> |r.value| == |fields|
    decreases entry
  {
    match entry.key
    case ScvSymbol(Some(name)) =>
      (var k := Find(FieldNames(fields), name);
       if k == |fields| then Ok(result)
       else
         (match Decode(s, fields[k].ty, entry.val)
          case Err(e) => Err(e)
          case Ok(v) => Ok(result[k := v])))
    case _ => Ok(result)
  }

  // ---- schemas and values both sides support ---------------------------------------------------

  predicate SupportedElem(ty: Ty)
  {
    ty in {TU64, TU32, TU128, TI256, TAddress, TBytes, TBytesN(4), TBytesN(16), TBytesN(32)} || ty.TNamed?
  }

  predicate SupportedPayload(ty: Ty) { !ty.TI256? && !ty.TOptAddress? && !ty.TVec? }

  predicate DistinctFields(fields: seq<Field>)
  {
    forall i, j | 0 <= i < j < |fields| :: fields[i].name != fields[j].name
  }
  predicate DistinctVariants(variants: seq<Variant>)
  {
    forall i, j | 0 <= i < j < |variants| :: variants[i].name != variants[j].name
  }

  predicate WellFormed(s: Schema)
  {
    forall n | n in s ::
      match s[n]
      case StructDecl(fields) => DistinctFields(fields)
      case EnumDecl(variants) => DistinctVariants(variants)
  }

  predicate TypedScalar(ty: Ty, v: Val)
  {
    match (ty, v)
    case (TU64, VU64(_)) => true
    case (TU32, VU32(_)) => true
    case (TU128, VU128(_)) => true
    case (TI128, VI128(i)) => -TWO127 < i < TWO127
    case (TI256, VI256(i)) => -TWO255 <= i < TWO255
    case (TBool, VBool(_)) => true
    case (TAddress, VAddress(_)) => true
    case (TBytes, VBytes(_)) => true
    case (TString, VString(_)) => true
    case (TSymbol, VSymbol(_)) => true
    case (TOptAddress, VOptAddress(_)) => true
    case (TBytesN(n), VBytes(b)) => n in {2, 4, 10, 16, 20, 32, 64} && |b| == n
    case _ => false
  }

  // The contract side counts an enum's variants by discriminant when it has some and
  // each carries an explicit one; any other enum is tagged by name.
  predicate Numbered(variants: seq<Variant>)
  {
    variants != [] && forall i | 0 <= i < |variants| :: variants[i].kind == Unit && variants[i].explicit
  }

  lemma NumberedIsIntRepr(variants: seq<Variant>)
    ensures Numbered(variants) <==> IsIntRepr(variants)
  {
    if Numbered(variants) {
      forall v | v in variants ensures v.kind.Unit? && v.explicit { }
    }
  }

  // The Go value has the emitted type, is in range, and every union in it has
  // exactly one variant set.
  predicate Typed(s: Schema, ty: Ty, v: Val)
    decreases v
  {
    match ty
    case TVec(elem) => v.VVec? && SupportedElem(elem) && TypedAll(s, Repeat(elem, |v.items|), v.items)
    case TNamed(name) =>
      name in s
      && (match s[name]
          case StructDecl(fields) => v.VStruct? && |v.fields| == |fields| && TypedAll(s, TypesOf(fields), v.fields)
          case EnumDecl(variants) =>
            if Numbered(variants) then v.VInt?
            else v.VUnion? && |v.slots| == |variants| && CountSet(v.slots) == 1
                 && forall i | 0 <= i < |variants| :: v.slots[i].Set? ==> TypedSlot(s, variants[i], v.slots[i]))
    case _ => TypedScalar(ty, v)
  }

  predicate TypedAll(s: Schema, tys: seq<Ty>, vs: seq<Val>)
    requires |tys| == |vs|
    decreases vs
  {
    forall i | 0 <= i < |vs| :: Typed(s, tys[i], vs[i])
  }

  predicate TypedSlot(s: Schema, variant: Variant, slot: Slot)
    requires slot.Set?
    decreases slot
  {
    |slot.payload| == |variant.payload| && (forall ty | ty in variant.payload :: SupportedPayload(ty))
    && TypedAll(s, variant.payload, slot.payload)
  }

  // ---- the decoder inverts the encoder -----------------------------------------------------------

  lemma ScalarRoundTrip(ty: Ty, v: Val)
    requires TypedScalar(ty, v)
    ensures EncodeScalar(ty, v).Ok? && DecodeScalar(ty, EncodeScalar(ty, v).value) == Ok(v)
  {
    hide I128ToScVal, I128FromScVal, I256ToScVal, I256FromScVal;
    match v
    case VI128(i) => I128Scalar(i);
    case VI256(i) => I256RoundTrip(i); I256Arm(i);
    case _ =>
  }

  lemma I128Scalar(i: int)
    requires -TWO127 < i < TWO127
    ensures var x := I128ToScVal(Some(i));
            x.Ok? && x.value.ScvI128? && x.value.i128.Some? && I128FromScVal(x.value) == Ok(i)
  {
    I128AcceptedRange(i);
    I128RoundTrip(i);
  }

  lemma I256Arm(i: int)
    requires -TWO255 <= i < TWO255
    ensures var x := I256ToScVal(Some(i)); x.Ok? && x.value.ScvI256? && x.value.i256.Some?
  {
  }

  predicate DecodesTo(s: Schema, tys: seq<Ty>, items: seq<ScVal>, vs: seq<Val>)
    requires |tys| == |vs|
  {
    |items| == |vs| && forall i | 0 <= i < |vs| :: Decode(s, tys[i], items[i]) == Ok(vs[i])
  }

  lemma {:induction false} DecodeAllOf(s: Schema, tys: seq<Ty>, items: seq<ScVal>, vs: seq<Val>)
    requires |tys| == |vs| && DecodesTo(s, tys, items, vs)
    ensures DecodeAll(s, tys, items) == Ok(vs)
    decreases items
  {
    if items != [] {
      assert forall i | 0 <= i < |vs| - 1 ::
               vs[1..][i] == vs[i + 1] && tys[1..][i] == tys[i + 1] && items[1..][i] == items[i + 1];
      DecodeAllOf(s, tys[1..], items[1..], vs[1..]);
      assert vs == [vs[0]] + vs[1..];
    }
  }

  lemma {:induction false} InsertMembers(p: NamedVal, sorted: seq<NamedVal>)
    ensures forall q :: q in Insert(p, sorted) <==> q == p || q in sorted
  {
    if sorted != [] && !AtMost(p.name, sorted[0].name) { InsertMembers(p, sorted[1..]); }
  }

  lemma {:induction false} SortMembers(pairs: seq<NamedVal>)
    ensures forall q :: q in SortByName(pairs) <==> q in pairs
  {
    if pairs != [] {
      SortMembers(pairs[1..]);
      InsertMembers(pairs[0], SortByName(pairs[1..]));
    }
  }

  predicate Mentions(entries: seq<MapEntry>, name: string)
  {
    exists e :: e in entries && e.key == ScvSymbol(Some(name))
  }

  // The field an entry names; |fields| for a key that is not a symbol or not a field.
  function Named(fields: seq<Field>, e: MapEntry): (k: nat)
    ensures k <= |fields|
  {
    match e.key
    case ScvSymbol(Some(name)) => Find(FieldNames(fields), name)
    case _ => |fields|
  }

  // The entry is skipped, or decodes to the target's value for the field it names.
  predicate Fits(s: Schema, fields: seq<Field>, e: MapEntry, target: seq<Val>)
    requires |fields| == |target|
  {
    var k := Named(fields, e);
    k < |fields| ==> Decode(s, fields[k].ty, e.val) == Ok(target[k])
  }

  lemma FirstEntryDecodes(s: Schema, fields: seq<Field>, entries: seq<MapEntry>, result: seq<Val>, target: seq<Val>)
    requires |result| == |fields| == |target| && entries != [] && Fits(s, fields, entries[0], target)
    ensures var k := Named(fields, entries[0]);
            DecodeFields(s, fields, entries, result) ==
            DecodeFields(s, fields, entries[1..], if k < |fields| then result[k := target[k]] else result)
  {
    hide Decode;
  }

  // A map sets exactly the fields it names, in whatever order it lists them, and
  // skips its other keys.
  lemma {:induction false} FieldsDecode(s: Schema, fields: seq<Field>, entries: seq<MapEntry>, result: seq<Val>,
                                        target: seq<Val>)
    requires |result| == |fields| == |target| && DistinctFields(fields)
    requires forall e | e in entries :: Fits(s, fields, e, target)
    ensures var r := DecodeFields(s, fields, entries, result);
            && r.Ok? && |r.value| == |fields|
            && forall j | 0 <= j < |fields| :: r.value[j] == if Mentions(entries, fields[j].name) then target[j]
               else result[j]
    decreases entries
  {
    if entries != [] {
      var e := entries[0];
      FirstEntryDecodes(s, fields, entries, result, target);
      hide Decode, DecodeFields, Find;
      var k := Named(fields, e);
      assert Fits(s, fields, e, target);
      var next := if k < |fields| then result[k := target[k]] else result;
      FieldsDecode(s, fields, entries[1..], next, target);
      forall j | 0 <= j < |fields|
        ensures Mentions(entries, fields[j].name) <==> j == k || Mentions(entries[1..], fields[j].name)
      {
        MentionsHead(entries, fields[j].name);
        NamesField(fields, e, j);
      }
    }
  }

  lemma NamesField(fields: seq<Field>, e: MapEntry, j: nat)
    requires j < |fields| && DistinctFields(fields)
    ensures e.key == ScvSymbol(Some(fields[j].name)) <==> Named(fields, e) == j
  {
    hide Find;
    assert FieldNames(fields)[j] == fields[j].name;
  }

  lemma MentionsHead(entries: seq<MapEntry>, name: string)
    requires entries != []
    ensures Mentions(entries, name) <==> entries[0].key == ScvSymbol(Some(name)) || Mentions(entries[1..], name)
  {
    if Mentions(entries[1..], name) {
      var e :| e in entries[1..] && e.key == ScvSymbol(Some(name));
      assert e in entries;
    }
  }

  lemma StructDecodes(s: Schema, fields: seq<Field>, items: seq<ScVal>, vs: seq<Val>)
    requires |fields| == |vs| && DistinctFields(fields) && DecodesTo(s, TypesOf(fields), items, vs)
    ensures DecodeMap(s, fields, Entries(EntriesOf(SortByName(Pairs(fields, items))))) == Ok(VStruct(vs))
  {
    hide Decode, Find, SortByName;
    var pairs := Pairs(fields, items);
    var sorted := SortByName(pairs);
    SortMembers(pairs);
    var entries := EntriesOf(sorted);
    forall e | e in entries ensures Fits(s, fields, e, vs) {
      var i :| 0 <= i < |entries| && entries[i] == e;
      assert sorted[i] in sorted;
      var j :| 0 <= j < |pairs| && pairs[j] == sorted[i];
      NamesField(fields, e, j);
      assert Decode(s, TypesOf(fields)[j], items[j]) == Ok(vs[j]);
    }
    var zeros := seq(|fields|, _ => Zero);
    FieldsDecode(s, fields, entries, zeros, vs);
    var r := DecodeFields(s, fields, entries, zeros);
    forall j | 0 <= j < |fields| ensures r.value[j] == vs[j] {
      assert pairs[j] in sorted;
      var i :| 0 <= i < |sorted| && sorted[i] == pairs[j];
      assert entries[i] in entries && entries[i].key == ScvSymbol(Some(fields[j].name));
      assert Mentions(entries, fields[j].name);
    }
    assert r.value == vs;
  }

  lemma {:induction false} RoundTrip(s: Schema, ty: Ty, v: Val)
    requires WellFormed(s) && Typed(s, ty, v)
    ensures Encode(s, ty, v).Ok? && Decode(s, ty, Encode(s, ty, v).value) == Ok(v)
    decreases v
  {
    hide EncodeScalar, DecodeScalar, SortByName, Find;
    match ty
    case TVec(elem) =>
      var tys := Repeat(elem, |v.items|);
      RoundTripAll(s, tys, v.items);
      DecodeAllOf(s, tys, EncodeAll(s, tys, v.items).value, v.items);
    case TNamed(name) =>
      match s[name] {
        case StructDecl(fields) =>
          RoundTripAll(s, TypesOf(fields), v.fields);
          StructDecodes(s, fields, EncodeAll(s, TypesOf(fields), v.fields).value, v.fields);
        case EnumDecl(variants) =>
          NumberedIsIntRepr(variants);
          if !Numbered(variants) {
            var k := TheSetSlot(v.slots);
            EncodesSlotAt(s, variants, v.slots, k);
            SlotRoundTrip(s, variants, v.slots[k], k);
            assert v.slots == OneSlot(|variants|, k, v.slots[k].payload);
          }
      }
    case _ => ScalarRoundTrip(ty, v);
  }

  lemma {:induction false} RoundTripAll(s: Schema, tys: seq<Ty>, vs: seq<Val>)
    requires WellFormed(s) && |tys| == |vs| && TypedAll(s, tys, vs)
    ensures EncodeAll(s, tys, vs).Ok? && DecodesTo(s, tys, EncodeAll(s, tys, vs).value, vs)
    decreases vs
  {
    hide Encode, Decode, Typed;
    if vs != [] {
      RoundTrip(s, tys[0], vs[0]);
      assert forall i | 0 <= i < |vs| - 1 :: vs[1..][i] == vs[i + 1] && tys[1..][i] == tys[i + 1];
      RoundTripAll(s, tys[1..], vs[1..]);
      var items, rest := EncodeAll(s, tys, vs).value, EncodeAll(s, tys[1..], vs[1..]).value;
      assert forall i | 1 <= i < |items| :: items[i] == rest[i - 1];
    }
  }

  // Exactly one pointer is set: its position.
  lemma {:induction false} TheSetSlot(slots: seq<Slot>) returns (k: nat)
    requires CountSet(slots) == 1
    ensures k < |slots| && slots[k].Set? && forall i | 0 <= i < |slots| && i != k :: slots[i].Unset?
  {
    if slots[0].Set? {
      k := 0;
      NoneSet(slots[1..]);
      assert forall i | 1 <= i < |slots| :: slots[i] == slots[1..][i - 1];
    } else {
      k := TheSetSlot(slots[1..]);
      k := k + 1;
      assert forall i | 1 <= i < |slots| :: slots[i] == slots[1..][i - 1];
    }
  }

  lemma {:induction false} NoneSet(slots: seq<Slot>)
    requires CountSet(slots) == 0
    ensures forall i | 0 <= i < |slots| :: slots[i].Unset?
  {
    if slots != [] { NoneSet(slots[1..]); assert forall i | 1 <= i < |slots| :: slots[i] == slots[1..][i - 1]; }
  }

  lemma {:induction false} EncodesSlotAt(s: Schema, variants: seq<Variant>, slots: seq<Slot>, k: nat)
    requires |variants| == |slots| && k < |slots| && slots[k].Set? && forall i | 0 <= i < k :: slots[i].Unset?
    ensures EncodeSlots(s, variants, slots) == EncodeSlot(s, variants[k], slots[k])
    decreases k
  {
    if k > 0 { EncodesSlotAt(s, variants[1..], slots[1..], k - 1); }
  }

  lemma {:induction false} SlotRoundTrip(s: Schema, variants: seq<Variant>, slot: Slot, k: nat)
    requires WellFormed(s) && k < |variants| && DistinctVariants(variants) && slot.Set? &&
             TypedSlot(s, variants[k], slot)
    ensures var x := EncodeSlot(s, variants[k], slot);
            && x.Ok? && x.value.ScvVec?
            && DecodeUnion(s, variants, x.value.vec) == Ok(VUnion(OneSlot(|variants|, k, slot.payload)))
    decreases slot
  {
    hide Decode, Typed, Find, EncodeAll, DecodeAll, TypedAll, DecodesTo, WellFormed, DistinctVariants;
    var variant := variants[k];
    RoundTripAll(s, variant.payload, slot.payload);
    var items := EncodeAll(s, variant.payload, slot.payload).value;
    DecodeAllOf(s, variant.payload, items, slot.payload);
    FindsVariant(variants, k);
    assert ([ScvSymbol(Some(variant.name))] + items)[1..] == items;
  }

  lemma FindsVariant(variants: seq<Variant>, k: nat)
    requires k < |variants| && DistinctVariants(variants)
    ensures Find(VariantNames(variants), variants[k].name) == k
  {
  }

  // ---- what the encoder promises the contract -------------------------------------------------------

  lemma {:induction false} ItemsEncode(s: Schema, tys: seq<Ty>, vs: seq<Val>)
    requires |tys| == |vs| && EncodeAll(s, tys, vs).Ok?
    ensures forall i | 0 <= i < |vs| :: Encode(s, tys[i], vs[i]) == Ok(EncodeAll(s, tys, vs).value[i])
    decreases vs
  {
    if vs != [] {
      hide Encode;
      ItemsEncode(s, tys[1..], vs[1..]);
      var items, rest := EncodeAll(s, tys, vs).value, EncodeAll(s, tys[1..], vs[1..]).value;
      assert forall i | 1 <= i < |vs| ::
               vs[i] == vs[1..][i - 1] && tys[i] == tys[1..][i - 1] && items[i] == rest[i - 1];
    }
  }

  // The items are the variant's verbatim tag, then its payload, each encoded in place.
  predicate UnionItems(s: Schema, variant: Variant, payload: seq<Val>, items: seq<ScVal>)
  {
    && |items| == 1 + |variant.payload| && |payload| == |variant.payload| && items[0] == ScvSymbol(Some(variant.name))
    && forall i | 0 <= i < |payload| :: Encode(s, variant.payload[i], payload[i]) == Ok(items[1..][i])
  }

  // Whatever value an enum accepts encodes as a number iff every variant, and there
  // is one, is unit with an explicit discriminant; else as a vec headed by the name
  // of the variant that is set.
  lemma EnumEncoding(s: Schema, name: string, v: Val)
    requires name in s && s[name].EnumDecl? && Encode(s, TNamed(name), v).Ok?
    ensures var x, variants := Encode(s, TNamed(name), v).value, s[name].variants;
            if variants != [] && forall i | 0 <= i < |variants| :: variants[i].kind == Unit && variants[i].explicit
            then v.VInt? && x == ScvU32(Some(v.discriminant))
            else
              && v.VUnion? && |v.slots| == |variants| && x.ScvVec? && x.vec.Items? && x.vec.items != []
              && exists k ::
                   0 <= k < |variants| && v.slots[k].Set? && x.vec.items[0] == ScvSymbol(Some(variants[k].name))
  {
    NumberedIsIntRepr(s[name].variants);
    if !Numbered(s[name].variants) { UnionEncoding(s, name, v); }
  }

  // A union encodes only with exactly one variant set, as its tag and payload.
  lemma UnionEncoding(s: Schema, name: string, v: Val)
    requires name in s && s[name].EnumDecl? && !Numbered(s[name].variants) && Encode(s, TNamed(name), v).Ok?
    ensures v.VUnion? && CountSet(v.slots) == 1
    ensures var x, variants := Encode(s, TNamed(name), v).value, s[name].variants;
            && x.ScvVec? && x.vec.Items? && |v.slots| == |variants|
            && exists k ::
                 0 <= k < |variants| && v.slots[k].Set? && UnionItems(s, variants[k], v.slots[k].payload, x.vec.items)
  {
    NumberedIsIntRepr(s[name].variants);
    var k := TheSetSlot(v.slots);
    var variant, payload := s[name].variants[k], v.slots[k].payload;
    EncodesSlotAt(s, s[name].variants, v.slots, k);
    ItemsEncode(s, variant.payload, payload);
    var items := EncodeAll(s, variant.payload, payload).value;
    assert ([ScvSymbol(Some(variant.name))] + items)[1..] == items;
    assert UnionItems(s, variant, payload, Encode(s, TNamed(name), v).value.vec.items);
  }

  lemma {:induction false} AtMostTotal(a: string, b: string)
    ensures AtMost(a, b) || AtMost(b, a)
    ensures AtMost(a, b) && AtMost(b, a) ==> a == b
  {
    if a != [] && b != [] && a[0] == b[0] {
      AtMostTotal(a[1..], b[1..]);
      assert a == [a[0]] + a[1..] && b == [b[0]] + b[1..];
    }
  }

  lemma {:induction false} AtMostTransitive(a: string, b: string, c: string)
    requires AtMost(a, b) && AtMost(b, c)
    ensures AtMost(a, c)
  {
    if a != [] && b != [] && c != [] && a[0] == b[0] == c[0] { AtMostTransitive(a[1..], b[1..], c[1..]); }
  }

  predicate Sorted(pairs: seq<NamedVal>) { forall i, j | 0 <= i < j < |pairs| :: AtMost(pairs[i].name, pairs[j].name) }

  lemma {:induction false} InsertSorts(p: NamedVal, sorted: seq<NamedVal>)
    requires Sorted(sorted)
    ensures Sorted(Insert(p, sorted)) && |Insert(p, sorted)| == |sorted| + 1
  {
    if sorted == [] {
    } else if AtMost(p.name, sorted[0].name) {
      forall j | 0 <= j < |sorted| ensures AtMost(p.name, sorted[j].name) {
        if j > 0 { AtMostTransitive(p.name, sorted[0].name, sorted[j].name); }
      }
    } else {
      AtMostTotal(p.name, sorted[0].name);
      var rest := sorted[1..];
      assert forall i | 0 <= i < |rest| :: rest[i] == sorted[i + 1];
      InsertSorts(p, rest);
      InsertMembers(p, rest);
      var r := Insert(p, rest);
      forall j | 0 <= j < |r| ensures AtMost(sorted[0].name, r[j].name) {
        assert r[j] in r;
        if r[j] != p { var i :| 0 <= i < |rest| && rest[i] == r[j]; assert AtMost(sorted[0].name, sorted[i + 1].name); }
      }
    }
  }

  lemma {:induction false} SortSorts(pairs: seq<NamedVal>)
    ensures Sorted(SortByName(pairs)) && |SortByName(pairs)| == |pairs|
  {
    if pairs != [] {
      SortSorts(pairs[1..]);
      InsertSorts(pairs[0], SortByName(pairs[1..]));
    }
  }

  // A struct encodes as a map with one entry per field, holding the field's own
  // encoding under its name, with the keys in order.
  lemma StructEncoding(s: Schema, name: string, v: Val)
    requires name in s && s[name].StructDecl? && Encode(s, TNamed(name), v).Ok?
    ensures var x, fields := Encode(s, TNamed(name), v).value, s[name].fields;
            && x.ScvMap? && x.entries.Entries? && v.VStruct? && |x.entries.entries| == |fields| == |v.fields|
            && (forall i | 0 <= i < |fields| ::
                  x.entries.entries[i].key.ScvSymbol? && x.entries.entries[i].key.sym.Some?)
            && (forall i, j | 0 <= i < j < |fields| ::
                AtMost(x.entries.entries[i].key.sym.value, x.entries.entries[j].key.sym.value))
            && (forall j | 0 <= j < |fields| :: Encode(s, fields[j].ty, v.fields[j]).Ok?
                  && MapEntry(ScvSymbol(Some(fields[j].name)),
                              Encode(s, fields[j].ty, v.fields[j]).value) in x.entries.entries)
  {
    var fields := s[name].fields;
    var items := EncodeAll(s, TypesOf(fields), v.fields).value;
    ItemsEncode(s, TypesOf(fields), v.fields);
    var pairs := Pairs(fields, items);
    SortSorts(pairs);
    SortMembers(pairs);
    var sorted := SortByName(pairs);
    var entries := EntriesOf(sorted);
    assert Encode(s, TNamed(name), v) == Ok(ScvMap(Entries(entries)));
    hide Encode, SortByName, AtMost;
    forall j | 0 <= j < |fields|
      ensures Encode(s, fields[j].ty, v.fields[j]).Ok?
      ensures MapEntry(ScvSymbol(Some(fields[j].name)), Encode(s, fields[j].ty, v.fields[j]).value) in entries
    {
      assert TypesOf(fields)[j] == fields[j].ty;
      assert pairs[j] in sorted;
      var i :| 0 <= i < |sorted| && sorted[i] == pairs[j];
      assert entries[i] in entries;
    }
  }

  // ---- the Soroban value a Go value stands for --------------------------------------------------------

  // Scalars by the arm and the number or text they carry.
  predicate DenotesScalar(ty: Ty, v: Val, x: ScVal)
  {
    match ty
    case TU64 => v.VU64? && x == ScvU64(Some(v.u64))
    case TU32 => v.VU32? && x == ScvU32(Some(v.u32))
    case TU128 => v.VU128? && x == ScvU128(Some(v.u128))
    case TI128 =>
      && v.VI128? && x.ScvI128? && x.i128.Some?
      && v.i128 == x.i128.value.hi as int * TWO64 + x.i128.value.lo as int
    case TI256 =>
      && v.VI256? && x.ScvI256? && x.i256.Some?
      && (var p := x.i256.value;
          v.i256 == ((p.hiHi as int * TWO64 + p.hiLo as int) * TWO64 + p.loHi as int) * TWO64 + p.loLo as int)
    case TBool => v.VBool? && x == ScvBool(Some(v.b))
    case TAddress => v.VAddress? && DenotesAddress(v.address, x)
    case TBytes => v.VBytes? && x == ScvBytes(Some(v.bytes))
    case TBytesN(n) => v.VBytes? && |v.bytes| == n && x == ScvBytes(Some(v.bytes))
    case TString => v.VString? && x == ScvString(Some(v.str))
    case TSymbol => v.VSymbol? && x == ScvSymbol(Some(v.sym))
    case TOptAddress => v.VOptAddress? && if v.option.None? then x == ScvVoid else DenotesAddress(v.option.value, x)
    case _ => false
  }

  predicate DenotesAddress(a: Strkey, x: ScVal)
  {
    x == ScvAddress(Some(if a.AccountKey? then AccountAddress(Some(a.key)) else ContractAddress(Some(a.key))))
  }

  // A vec item by item; a struct as a map from field names, listed in order, to its
  // fields; an enum as its number, or as the set variant's name and payload.
  predicate Denotes(s: Schema, ty: Ty, v: Val, x: ScVal)
    decreases v, 0
  {
    match ty
    case TVec(elem) =>
      && v.VVec? && x.ScvVec? && x.vec.Items? && |x.vec.items| == |v.items|
      && (forall i | 0 <= i < |v.items| :: Denotes(s, elem, v.items[i], x.vec.items[i]))
    case TNamed(name) =>
      name in s
      && (match s[name]
          case StructDecl(fields) =>
            && v.VStruct? && |v.fields| == |fields| && x.ScvMap? && x.entries.Entries? && KeysInOrder(x.entries.entries)
            && |x.entries.entries| == |fields|
            && (forall j | 0 <= j < |fields| :: DenotesField(s, fields[j], v.fields[j], x.entries.entries))
          case EnumDecl(variants) =>
            if Numbered(variants) then v.VInt? && x == ScvU32(Some(v.discriminant))
            else
              && v.VUnion? && |v.slots| == |variants| && x.ScvVec? && x.vec.Items?
              && DenotesSlots(s, variants, v.slots, x.vec.items))
    case _ => DenotesScalar(ty, v, x)
  }

  predicate DenotesField(s: Schema, field: Field, v: Val, entries: seq<MapEntry>)
    decreases v, 1
  {
    exists i | 0 <= i < |entries| ::
      entries[i].key == ScvSymbol(Some(field.name)) && Denotes(s, field.ty, v, entries[i].val)
  }

  predicate DenotesSlots(s: Schema, variants: seq<Variant>, slots: seq<Slot>, items: seq<ScVal>)
    requires |variants| == |slots|
    decreases slots
  {
    exists k | 0 <= k < |slots| :: OnlySet(slots, k) && DenotesSlot(s, variants[k], slots[k], items)
  }

  predicate OnlySet(slots: seq<Slot>, k: nat)
    requires k < |slots|
  {
    slots[k].Set? && forall i | 0 <= i < |slots| && i != k :: slots[i].Unset?
  }

  predicate DenotesSlot(s: Schema, variant: Variant, slot: Slot, items: seq<ScVal>)
    requires slot.Set?
    decreases slot
  {
    && |items| == 1 + |slot.payload| && |slot.payload| == |variant.payload| && items[0] == ScvSymbol(Some(variant.name))
    && forall i | 0 <= i < |slot.payload| :: Denotes(s, variant.payload[i], slot.payload[i], items[1 + i])
  }

  predicate KeysInOrder(entries: seq<MapEntry>)
  {
    && (forall i | 0 <= i < |entries| :: entries[i].key.ScvSymbol? && entries[i].key.sym.Some?)
    && (forall i, j | 0 <= i < j < |entries| :: AtMost(entries[i].key.sym.value, entries[j].key.sym.value))
  }

  lemma ScalarDenotes(ty: Ty, v: Val)
    requires TypedScalar(ty, v)
    ensures EncodeScalar(ty, v).Ok? && DenotesScalar(ty, v, EncodeScalar(ty, v).value)
  {
    hide I128ToScVal, I128FromScVal, I256ToScVal, I256FromScVal;
    match v
    case VI128(i) =>
      I128Scalar(i);
      I128Value(I128ToScVal(Some(i)).value.i128.value);
    case VI256(i) =>
      I256RoundTrip(i);
      I256Arm(i);
      I256Value(I256ToScVal(Some(i)).value.i256.value);
    case _ =>
  }

  // Every typed value encodes, as the Soroban value its declaration gives it.
  lemma {:induction false} EncodingDenotes(s: Schema, ty: Ty, v: Val)
    requires WellFormed(s) && Typed(s, ty, v)
    ensures Encode(s, ty, v).Ok? && Denotes(s, ty, v, Encode(s, ty, v).value)
    decreases v
  {
    RoundTrip(s, ty, v);
    match ty
    case TVec(elem) =>
      hide Encode, Denotes;
      forall i | 0 <= i < |v.items| ensures Encode(s, elem, v.items[i]).Ok? && Stands(s, elem, v.items[i]) {
        EncodingDenotes(s, elem, v.items[i]);
      }
      VecDenotes(s, elem, v);
    case TNamed(name) =>
      hide Encode, Denotes;
      match s[name] {
        case StructDecl(fields) =>
          forall j | 0 <= j < |fields|
            ensures Encode(s, fields[j].ty, v.fields[j]).Ok? && Stands(s, fields[j].ty, v.fields[j])
          {
            assert Typed(s, TypesOf(fields)[j], v.fields[j]);
            EncodingDenotes(s, fields[j].ty, v.fields[j]);
          }
          StructDenotes(s, name, v);
        case EnumDecl(variants) =>
          if Numbered(variants) {
            NumberDenotes(s, name, v);
          } else {
            var k := TheSetSlot(v.slots);
            UnionSlot(s, name, v, k);
            SlotDenotes(s, variants[k], v.slots[k]);
            UnionDenotes(s, name, variants, v.slots, EncodeSlot(s, variants[k], v.slots[k]).value.vec.items, k);
          }
      }
    case _ => ScalarDenotes(ty, v);
  }

  predicate Stands(s: Schema, ty: Ty, v: Val)
    requires Encode(s, ty, v).Ok?
  {
    Denotes(s, ty, v, Encode(s, ty, v).value)
  }

  lemma VecDenotes(s: Schema, elem: Ty, v: Val)
    requires v.VVec? && Encode(s, TVec(elem), v).Ok?
    requires forall i | 0 <= i < |v.items| :: Encode(s, elem, v.items[i]).Ok? && Stands(s, elem, v.items[i])
    ensures Stands(s, TVec(elem), v)
  {
    ItemsEncode(s, Repeat(elem, |v.items|), v.items);
    var x := Encode(s, TVec(elem), v).value;
    assert x == ScvVec(Items(EncodeAll(s, Repeat(elem, |v.items|), v.items).value));
    hide Encode, EncodeAll;
    forall i | 0 <= i < |v.items| ensures Denotes(s, elem, v.items[i], x.vec.items[i]) {
      assert Encode(s, elem, v.items[i]) == Ok(x.vec.items[i]) && Stands(s, elem, v.items[i]);
    }
  }

  lemma StructDenotes(s: Schema, name: string, v: Val)
    requires name in s && s[name].StructDecl? && Encode(s, TNamed(name), v).Ok?
    requires v.VStruct? && |v.fields| == |s[name].fields|
    requires forall j | 0 <= j < |v.fields| ::
               Encode(s, s[name].fields[j].ty, v.fields[j]).Ok? && Stands(s, s[name].fields[j].ty, v.fields[j])
    ensures Stands(s, TNamed(name), v)
  {
    hide Encode;
    StructEncoding(s, name, v);
    var fields, entries := s[name].fields, Encode(s, TNamed(name), v).value.entries.entries;
    forall j | 0 <= j < |fields| ensures DenotesField(s, fields[j], v.fields[j], entries) {
      var e := MapEntry(ScvSymbol(Some(fields[j].name)), Encode(s, fields[j].ty, v.fields[j]).value);
      assert e in entries && Stands(s, fields[j].ty, v.fields[j]);
      var i :| 0 <= i < |entries| && entries[i] == e;
      assert entries[i].key == ScvSymbol(Some(fields[j].name)) && Denotes(s, fields[j].ty, v.fields[j], entries[i].val);
    }
  }

  lemma UnionSlot(s: Schema, name: string, v: Val, k: nat)
    requires name in s && s[name].EnumDecl? && !Numbered(s[name].variants) && Encode(s, TNamed(name), v).Ok?
    requires v.VUnion? && k < |v.slots| == |s[name].variants| && OnlySet(v.slots, k)
    ensures Encode(s, TNamed(name), v) == EncodeSlot(s, s[name].variants[k], v.slots[k])
  {
    NumberedIsIntRepr(s[name].variants);
    EncodesSlotAt(s, s[name].variants, v.slots, k);
  }

  lemma NumberDenotes(s: Schema, name: string, v: Val)
    requires name in s && s[name].EnumDecl? && Numbered(s[name].variants) && Encode(s, TNamed(name), v).Ok?
    ensures Stands(s, TNamed(name), v)
  {
    EnumEncoding(s, name, v);
    hide Encode;
  }

  lemma UnionDenotes(s: Schema, name: string, variants: seq<Variant>, slots: seq<Slot>, items: seq<ScVal>, k: nat)
    requires name in s && s[name] == EnumDecl(variants) && !Numbered(variants)
    requires k < |slots| == |variants| && OnlySet(slots, k) && DenotesSlot(s, variants[k], slots[k], items)
    ensures Denotes(s, TNamed(name), VUnion(slots), ScvVec(Items(items)))
  {
    assert DenotesSlots(s, variants, slots, items);
  }

  lemma {:induction false} SlotDenotes(s: Schema, variant: Variant, slot: Slot)
    requires WellFormed(s) && slot.Set? && TypedSlot(s, variant, slot) && EncodeSlot(s, variant, slot).Ok?
    ensures var x := EncodeSlot(s, variant, slot).value;
            x.ScvVec? && x.vec.Items? && DenotesSlot(s, variant, slot, x.vec.items)
    decreases slot
  {
    hide Encode, Typed, Denotes;
    ItemsEncode(s, variant.payload, slot.payload);
    forall i | 0 <= i < |slot.payload|
      ensures Denotes(s, variant.payload[i], slot.payload[i], EncodeAll(s, variant.payload, slot.payload).value[i])
    {
      EncodingDenotes(s, variant.payload[i], slot.payload[i]);
    }
  }

  // ---- what a decoder accepts ---------------------------------------------------------------------------

  // A decoded value is the one its Soroban value stands for; of a struct's map only
  // the last entry under each field's name counts, and a field without one is zero.
  predicate Accepted(s: Schema, ty: Ty, v: Val, x: ScVal)
    decreases x, 0
  {
    match ty
    case TVec(elem) => v.VVec? && x.ScvVec? && x.vec.Items? &&
      AllAccepted(s, Repeat(elem, |v.items|), v.items, x.vec.items)
    case TNamed(name) =>
      name in s
      && (match s[name]
          case StructDecl(fields) =>
            && v.VStruct? && |v.fields| == |fields| && x.ScvMap? && x.entries.Entries?
            && (forall j | 0 <= j < |fields| :: FieldAccepted(s, fields[j], v.fields[j], x.entries.entries, Zero))
          case EnumDecl(variants) =>
            if Numbered(variants) then v.VInt? && x == ScvU32(Some(v.discriminant))
            else
              && v.VUnion? && |v.slots| == |variants| && x.ScvVec? && x.vec.Items?
              && SlotsAccepted(s, variants, v.slots, x.vec.items))
    case _ => DenotesScalar(ty, v, x)
  }

  predicate AllAccepted(s: Schema, tys: seq<Ty>, vs: seq<Val>, items: seq<ScVal>)
    requires |tys| == |vs|
    decreases items, 0
  {
    |items| == |vs| && forall i | 0 <= i < |items| :: Accepted(s, tys[i], vs[i], items[i])
  }

  predicate SlotsAccepted(s: Schema, variants: seq<Variant>, slots: seq<Slot>, items: seq<ScVal>)
    requires |variants| == |slots|
    decreases items, 1
  {
    && items != []
    && exists k | 0 <= k < |slots| ::
         && OnlySet(slots, k) && items[0] == ScvSymbol(Some(variants[k].name))
         && |slots[k].payload| == |variants[k].payload|
         && AllAccepted(s, variants[k].payload, slots[k].payload, items[1..])
  }

  // The value of the last entry named for the field, or what was there before.
  predicate FieldAccepted(s: Schema, field: Field, v: Val, entries: seq<MapEntry>, before: Val)
    decreases entries, 0
  {
    if !Mentions(entries, field.name) then v == before
    else exists i | 0 <= i < |entries| :: IsLast(entries, field.name, i) && EntryAccepted(s, field.ty, v, entries[i])
  }

  predicate EntryAccepted(s: Schema, ty: Ty, v: Val, e: MapEntry)
    decreases e, 0
  {
    Accepted(s, ty, v, e.val)
  }

  predicate IsLast(entries: seq<MapEntry>, name: string, i: nat)
    requires i < |entries|
  {
    entries[i].key == ScvSymbol(Some(name)) && forall j | i < j < |entries| :: entries[j].key != ScvSymbol(Some(name))
  }

  lemma ScalarAccepted(ty: Ty, x: ScVal)
    requires DecodeScalar(ty, x).Ok?
    ensures DenotesScalar(ty, DecodeScalar(ty, x).value, x)
  {
    if x.ScvI128? && x.i128.Some? { I128Value(x.i128.value); }
    if x.ScvI256? && x.i256.Some? { I256Value(x.i256.value); }
    hide I128FromScVal, I256FromScVal;
  }

  lemma {:induction false} DecodeAccepted(s: Schema, ty: Ty, x: ScVal)
    requires WellFormed(s) && Decode(s, ty, x).Ok?
    ensures Accepted(s, ty, Decode(s, ty, x).value, x)
    decreases x, 0
  {
    match ty
    case TVec(elem) =>
      var items := x.vec.items;
      AllDecodeAccepted(s, Repeat(elem, |items|), items);
    case TNamed(name) =>
      match s[name] {
        case StructDecl(fields) =>
          var entries, zeros := x.entries.entries, seq(|fields|, _ => Zero);
          FieldsAccepted(s, fields, entries, zeros);
        case EnumDecl(variants) =>
          NumberedIsIntRepr(variants);
          if !Numbered(variants) { UnionAccepted(s, variants, x.vec.items); }
      }
    case _ => ScalarAccepted(ty, x);
  }

  lemma {:induction false} AllDecodeAccepted(s: Schema, tys: seq<Ty>, items: seq<ScVal>)
    requires WellFormed(s) && |tys| == |items| && DecodeAll(s, tys, items).Ok?
    ensures |DecodeAll(s, tys, items).value| == |items|
    ensures AllAccepted(s, tys, DecodeAll(s, tys, items).value, items)
    decreases items, 1
  {
    if items != [] {
      DecodeAccepted(s, tys[0], items[0]);
      AllDecodeAccepted(s, tys[1..], items[1..]);
      var vs := DecodeAll(s, tys, items).value;
      assert vs[1..] == DecodeAll(s, tys[1..], items[1..]).value;
      hide Decode, DecodeAll, Accepted;
      forall i | 0 <= i < |items| ensures Accepted(s, tys[i], vs[i], items[i]) {
        if i > 0 { assert Accepted(s, tys[1..][i - 1], vs[1..][i - 1], items[1..][i - 1]); }
      }
    }
  }

  lemma {:induction false} UnionAccepted(s: Schema, variants: seq<Variant>, items: seq<ScVal>)
    requires WellFormed(s) && DecodeUnion(s, variants, Items(items)).Ok?
    ensures var v := DecodeUnion(s, variants, Items(items)).value;
            v.VUnion? && |v.slots| == |variants| && SlotsAccepted(s, variants, v.slots, items)
    decreases items, 2
  {
    var k := Find(VariantNames(variants), items[0].sym.value);
    AllDecodeAccepted(s, variants[k].payload, items[1..]);
    var v := DecodeUnion(s, variants, Items(items)).value;
    assert OnlySet(v.slots, k);
  }

  lemma {:induction false} FieldsAccepted(s: Schema, fields: seq<Field>, entries: seq<MapEntry>, result: seq<Val>)
    requires WellFormed(s) && |result| == |fields| && DistinctFields(fields)
    requires DecodeFields(s, fields, entries, result).Ok?
    ensures var r := DecodeFields(s, fields, entries, result).value;
            |r| == |fields| && forall j | 0 <= j < |fields| :: FieldAccepted(s, fields[j], r[j], entries, result[j])
    decreases entries, 1
  {
    if entries != [] {
      var e, next := entries[0], DecodeEntry(s, fields, entries[0], result).value;
      var k := Named(fields, e);
      if k < |fields| { EntryDecodeAccepted(s, fields[k].ty, e); }
      FieldsAccepted(s, fields, entries[1..], next);
      var r := DecodeFields(s, fields, entries, result).value;
      hide Decode, DecodeFields, FieldAccepted, Accepted, Find;
      forall j | 0 <= j < |fields| ensures FieldAccepted(s, fields[j], r[j], entries, result[j]) {
        NamesField(fields, e, j);
        FirstEntryAccepted(s, fields[j], r[j], entries, result[j], next[j]);
      }
    }
  }

  lemma {:induction false} EntryDecodeAccepted(s: Schema, ty: Ty, e: MapEntry)
    requires WellFormed(s) && Decode(s, ty, e.val).Ok?
    ensures Accepted(s, ty, Decode(s, ty, e.val).value, e.val)
    decreases e, 1
  {
    DecodeAccepted(s, ty, e.val);
  }

  lemma FirstEntryAccepted(s: Schema, field: Field, v: Val, entries: seq<MapEntry>, before: Val, next: Val)
    requires entries != [] && FieldAccepted(s, field, v, entries[1..], next)
    requires if entries[0].key == ScvSymbol(Some(field.name)) then Accepted(s, field.ty, next, entries[0].val)
             else next == before
    ensures FieldAccepted(s, field, v, entries, before)
  {
    var name, rest := field.name, entries[1..];
    MentionsHead(entries, name);
    if Mentions(rest, name) {
      var i :| 0 <= i < |rest| && IsLast(rest, name, i) && EntryAccepted(s, field.ty, v, rest[i]);
      assert entries[i + 1] == rest[i];
      assert forall j | i + 1 < j < |entries| :: entries[j] == rest[j - 1];
      assert IsLast(entries, name, i + 1);
    } else if entries[0].key == ScvSymbol(Some(name)) {
      assert forall j | 0 < j < |entries| :: entries[j] == rest[j - 1] && rest[j - 1] in rest;
      assert IsLast(entries, name, 0) && EntryAccepted(s, field.ty, v, entries[0]);
    }
  }
}
