/**
 relayer/type_converters.go: contract values between the relayer's domain type
 and the Soroban value type.
 */
module ScValConverters {
  import opened Wrappers
  import opened Words
  import opened Xdr

  // The leaves both sides have.  A nil and an empty byte string are one value.
  datatype Prim =
    | Bool(b: bool) | Void | U32(u32: uint32) | I32(i32: int32) | U64(u64: uint64) | I64(i64: int64)
    | Timepoint(t: uint64) | Duration(d: uint64) | U128(u128: UInt128Parts) | I128(i128: Int128Parts)
    | U256(u256: UInt256Parts) | I256(i256: Int256Parts) | Bytes(bytes: seq<byte>) | Str(str: string) | Sym(sym: string)

  datatype DomAddress =
    | AccountID(account: seq<byte>)
    | ContractID(contract: seq<byte>)
    | MuxedAccount(id: uint64, ed25519: seq<byte>)
    | ClaimableBalanceID(balance: seq<byte>)
    | LiquidityPoolID(pool: seq<byte>)

  // Unset: the field its type names is nil.  The types from LedgerError on are
  // not contract arguments.
  datatype DomVal =
    | Leaf(prim: Prim)
    | Unset
    | Vec(values: seq<DomPtr>)
    | Map(entries: seq<DomEntry>)
    | Address(address: DomAddress)
    | LedgerError(error: DomError)
    | LedgerInstance(executable: DomExecutable, storage: seq<DomEntry>)
    | InstanceKey
    | NonceKey(nonce: int64)
    | Other(tag: nat)

  datatype DomError = ContractError(contractCode: uint32) | HostError(kind: nat, code: int32)
  datatype DomExecutable = WasmExecutable(hash: seq<byte>) | AssetExecutable

  datatype DomPtr = Nil | Ptr(v: DomVal)
  datatype DomEntry = DomEntry(key: DomPtr, val: DomPtr)

  function PrimToXdr(p: Prim): ScVal
  {
    match p
    case Bool(b) => ScvBool(Some(b))
    case Void => ScvVoid
    case U32(u) => ScvU32(Some(u))
    case I32(i) => ScvI32(Some(i))
    case U64(u) => ScvU64(Some(u))
    case I64(i) => ScvI64(Some(i))
    case Timepoint(t) => ScvTimepoint(Some(t))
    case Duration(d) => ScvDuration(Some(d))
    case U128(p) => ScvU128(Some(p))
    case I128(p) => ScvI128(Some(p))
    case U256(p) => ScvU256(Some(p))
    case I256(p) => ScvI256(Some(p))
    case Bytes(b) => ScvBytes(Some(b))
    case Str(s) => ScvString(Some(s))
    case Sym(s) => ScvSymbol(Some(s))
  }

  // None: not a leaf, or a leaf whose arm is nil.
  function XdrToPrim(x: ScVal): Option<Prim>
  {
    match x
    case ScvBool(Some(b)) => Some(Bool(b))
    case ScvVoid => Some(Void)
    case ScvU32(Some(u)) => Some(U32(u))
    case ScvI32(Some(i)) => Some(I32(i))
    case ScvU64(Some(u)) => Some(U64(u))
    case ScvI64(Some(i)) => Some(I64(i))
    case ScvTimepoint(Some(t)) => Some(Timepoint(t))
    case ScvDuration(Some(d)) => Some(Duration(d))
    case ScvU128(Some(p)) => Some(U128(p))
    case ScvI128(Some(p)) => Some(I128(p))
    case ScvU256(Some(p)) => Some(U256(p))
    case ScvI256(Some(p)) => Some(I256(p))
    case ScvBytes(Some(b)) => Some(Bytes(b))
    case ScvString(Some(s)) => Some(Str(s))
    case ScvSymbol(Some(s)) => Some(Sym(s))
    case _ => None
  }

  lemma PrimsInverse(p: Prim, x: ScVal)
    ensures XdrToPrim(PrimToXdr(p)) == Some(p)
    ensures XdrToPrim(x).Some? ==> PrimToXdr(XdrToPrim(x).value) == x
  {
  }

  // ---- domain to XDR --------------------------------------------------------------------

  function AddressFromDomain(a: DomAddress): Result<ScAddress, string>
  {
    match a
    case AccountID(b) => if |b| != 32 then Err("account id must be 32 bytes") else Ok(AccountAddress(Some(b)))
    case ContractID(b) => if |b| != 32 then Err("contract id must be 32 bytes") else Ok(ContractAddress(Some(b)))
    case _ => Err("unsupported address type as contract argument")
  }

  function FromDomain(v: DomVal): Result<ScVal, string>
    decreases v
  {
    match v
    case Leaf(p) => Ok(PrimToXdr(p))
    case Unset => Err("nil field")
    case Vec(values) =>
      (match FromValues(values)
       case Err(e) => Err(e)
       case Ok(items) => Ok(ScvVec(Items(items))))
    case Map(entries) =>
      (match FromEntries(entries)
       case Err(e) => Err(e)
       case Ok(items) => Ok(ScvMap(Entries(items))))
    case Address(a) =>
      (match AddressFromDomain(a)
       case Err(e) => Err(e)
       case Ok(x) => Ok(ScvAddress(Some(x))))
    case _ => Err("unsupported type as contract argument")
  }

  function FromPtr(p: DomPtr): Result<ScVal, string>
    decreases p
  {
    if p.Nil? then Err("nil element") else FromDomain(p.v)
  }

  // The elements in order, or the first one's error.
  function FromValues(values: seq<DomPtr>): Result<seq<ScVal>, string>
    decreases values
  {
    if values == [] then Ok([])
    else
      var head := FromPtr(values[0]);
      if head.Err? then Err(head.error)
      else
        match FromValues(values[1..])
        case Err(e) => Err(e)
        case Ok(tail) => Ok([head.value] + tail)
  }

  function FromEntry(e: DomEntry): Result<Xdr.MapEntry, string>
    decreases e
  {
    var key := FromPtr(e.key);
    var val := FromPtr(e.val);
    if key.Err? then Err(key.error) else if val.Err? then Err(val.error) else Ok(Xdr.MapEntry(key.value, val.value))
  }

  function FromEntries(entries: seq<DomEntry>): Result<seq<Xdr.MapEntry>, string>
    decreases entries
  {
    if entries == [] then Ok([])
    else
      var head := FromEntry(entries[0]);
      if head.Err? then Err(head.error)
      else
        match FromEntries(entries[1..])
        case Err(e) => Err(e)
        case Ok(tail) => Ok([head.value] + tail)
  }

  // ---- XDR to domain ---------------------------------------------------------------------

  function AddressToDomain(a: ScAddress): Result<DomAddress, string>
  {
    match a
    case AccountAddress(Some(id)) => Ok(AccountID(id))
    case ContractAddress(Some(id)) => Ok(ContractID(id))
    case MuxedAccountAddress(Some(m)) => Ok(MuxedAccount(m.0, m.1))
    case ClaimableBalanceAddress(Some(id)) => Ok(ClaimableBalanceID(id))
    case LiquidityPoolAddress(Some(id)) => Ok(LiquidityPoolID(id))
    case _ => Err("address arm is nil or unsupported")
  }

  const SCE_CONTRACT: nat := 0
  const SCE_AUTH: nat := 9

  function ErrorToDomain(e: ScError): Result<DomError, string>
  {
    if e.kind > SCE_AUTH then Err("unsupported sc error type")
    else if e.kind == SCE_CONTRACT then
      if e.contractCode.None? then Err("contract error code is nil") else Ok(ContractError(e.contractCode.value))
    else if e.code.None? then Err("error code is nil")
    else Ok(HostError(e.kind, e.code.value))
  }

  function ExecutableToDomain(e: Executable): Result<DomExecutable, string>
  {
    match e
    case Wasm(Some(hash)) => Ok(WasmExecutable(hash))
    case StellarAsset => Ok(AssetExecutable)
    case _ => Err("wasm hash is nil or executable is unsupported")
  }

  function ToDomain(x: ScVal): Result<DomVal, string>
    decreases x
  {
    match x
    case ScvVec(arm) => VecToDomain(arm)
    case ScvMap(arm) => MapToDomain(arm)
    case ScvAddress(a) =>
      if a.None? then Err("address value is nil")
      else
        (match AddressToDomain(a.value)
         case Err(e) => Err(e)
         case Ok(d) => Ok(Address(d)))
    case ScvError(e) =>
      if e.None? then Err("error value is nil")
      else
        (match ErrorToDomain(e.value)
         case Err(m) => Err(m)
         case Ok(d) => Ok(LedgerError(d)))
    case ScvContractInstance(arm) => InstanceToDomain(arm)
    case ScvLedgerKeyContractInstance => Ok(InstanceKey)
    case ScvLedgerKeyNonce(n) => if n.None? then Err("nonce key value is nil") else Ok(NonceKey(n.value))
    case ScvUnknown(_) => Err("unsupported scval type")
    case _ => if XdrToPrim(x).None? then Err("value is nil") else Ok(Leaf(XdrToPrim(x).value))
  }

  function InstanceToDomain(arm: InstanceArm): Result<DomVal, string>
    decreases arm
  {
    match arm
    case NilInstance => Err("contract instance value is nil")
    case Instance(executable, storage) =>
      match ExecutableToDomain(executable)
      case Err(m) => Err(m)
      case Ok(d) =>
        match StorageToDomain(storage)
        case Err(m) => Err(m)
        case Ok(entries) => Ok(LedgerInstance(d, entries))
  }

  // An absent storage map and an empty one are one value.
  function StorageToDomain(arm: StorageArm): Result<seq<DomEntry>, string>
    decreases arm
  {
    if arm.NoStorage? then Ok([]) else ToEntries(arm.stored)
  }

  function VecToDomain(arm: VecArm): Result<DomVal, string>
    decreases arm
  {
    match arm
    case NilVec => Err("vec value is nil")
    case NullVec => Ok(Vec([]))
    case Items(items) =>
      match ToValues(items)
      case Err(e) => Err(e)
      case Ok(values) => Ok(Vec(values))
  }

  function MapToDomain(arm: MapArm): Result<DomVal, string>
    decreases arm
  {
    match arm
    case NilMap => Err("map value is nil")
    case NullMap => Ok(Map([]))
    case Entries(items) =>
      match ToEntries(items)
      case Err(e) => Err(e)
      case Ok(entries) => Ok(Map(entries))
  }

  function ToValues(items: seq<ScVal>): Result<seq<DomPtr>, string>
    decreases items
  {
    if items == [] then Ok([])
    else
      var head := ToDomain(items[0]);
      if head.Err? then Err(head.error)
      else
        match ToValues(items[1..])
        case Err(e) => Err(e)
        case Ok(tail) => Ok([Ptr(head.value)] + tail)
  }

  function ToEntry(e: Xdr.MapEntry): Result<DomEntry, string>
    decreases e
  {
    var key := ToDomain(e.key);
    var val := ToDomain(e.val);
    if key.Err? then Err(key.error) else if val.Err? then Err(val.error)
      else Ok(DomEntry(Ptr(key.value), Ptr(val.value)))
  }

  function ToEntries(items: seq<Xdr.MapEntry>): Result<seq<DomEntry>, string>
    decreases items
  {
    if items == [] then Ok([])
    else
      var head := ToEntry(items[0]);
      if head.Err? then Err(head.error)
      else
        match ToEntries(items[1..])
        case Err(e) => Err(e)
        case Ok(tail) => Ok([head.value] + tail)
  }

  // ---- which trees convert ------------------------------------------------------------------

  // No node is malformed: every named field is set, no element, key or value is
  // nil, and every address is an account or contract of 32 bytes.
  predicate WellFormed(v: DomVal)
    decreases v
  {
    match v
    case Leaf(_) => true
    case Unset => false
    case Vec(values) => forall i | 0 <= i < |values| :: WellFormedPtr(values[i])
    case Map(entries) => forall i | 0 <= i < |entries| :: WellFormedPtr(entries[i].key) && WellFormedPtr(entries[i].val)
    case Address(AccountID(b)) => |b| == 32
    case Address(ContractID(b)) => |b| == 32
    case _ => false
  }

  predicate WellFormedPtr(p: DomPtr)
    decreases p
  {
    p.Ptr? && WellFormed(p.v)
  }

  lemma {:induction false} ConvertsIffWellFormed(v: DomVal)
    ensures FromDomain(v).Ok? <==> WellFormed(v)
    decreases v
  {
    match v
    case Vec(values) => ValuesConvert(values);
    case Map(entries) => EntriesConvert(entries);
    case _ =>
  }

  lemma {:induction false} PtrConverts(p: DomPtr)
    ensures FromPtr(p).Ok? <==> WellFormedPtr(p)
    decreases p
  {
    if p.Ptr? { ConvertsIffWellFormed(p.v); }
  }

  lemma {:induction false} ValuesConvert(values: seq<DomPtr>)
    ensures FromValues(values).Ok? <==> forall i | 0 <= i < |values| :: WellFormedPtr(values[i])
    decreases values
  {
    if values != [] {
      PtrConverts(values[0]);
      ValuesConvert(values[1..]);
      assert forall i | 0 < i < |values| :: values[i] == values[1..][i - 1];
    }
  }

  lemma {:induction false} EntriesConvert(entries: seq<DomEntry>)
    ensures FromEntries(entries).Ok? <==> forall i | 0 <= i < |entries| ::
              WellFormedPtr(entries[i].key) && WellFormedPtr(entries[i].val)
    decreases entries
  {
    if entries != [] {
      EntryConverts(entries[0]);
      EntriesConvert(entries[1..]);
      assert forall i | 0 < i < |entries| :: entries[i] == entries[1..][i - 1];
    }
  }

  lemma {:induction false} EntryConverts(e: DomEntry)
    ensures FromEntry(e).Ok? <==> WellFormedPtr(e.key) && WellFormedPtr(e.val)
    decreases e
  {
    PtrConverts(e.key);
    PtrConverts(e.val);
  }

  // No arm that its variant needs is nil, no address is a muxed contract, and no
  // type, error type or executable is unknown.
  predicate Sound(x: ScVal)
    decreases x
  {
    match x
    case ScvVec(arm) => SoundVec(arm)
    case ScvMap(arm) => SoundMap(arm)
    case ScvAddress(a) => a.Some? && AddressToDomain(a.value).Ok?
    case ScvError(e) => e.Some? && ErrorToDomain(e.value).Ok?
    case ScvContractInstance(arm) => SoundInstance(arm)
    case ScvLedgerKeyContractInstance => true
    case ScvLedgerKeyNonce(n) => n.Some?
    case ScvUnknown(_) => false
    case _ => XdrToPrim(x).Some?
  }

  predicate SoundInstance(arm: InstanceArm)
    decreases arm
  {
    arm.Instance? && ExecutableToDomain(arm.executable).Ok? && SoundStorage(arm.storage)
  }

  predicate SoundStorage(arm: StorageArm)
    decreases arm
  {
    arm.Storage? ==> forall i | 0 <= i < |arm.stored| :: SoundEntry(arm.stored[i])
  }

  predicate SoundVec(arm: VecArm)
    decreases arm
  {
    !arm.NilVec? && (arm.Items? ==> forall i | 0 <= i < |arm.items| :: Sound(arm.items[i]))
  }

  predicate SoundMap(arm: MapArm)
    decreases arm
  {
    !arm.NilMap? && (arm.Entries? ==> forall i | 0 <= i < |arm.entries| :: SoundEntry(arm.entries[i]))
  }

  predicate SoundEntry(e: Xdr.MapEntry)
    decreases e
  {
    Sound(e.key) && Sound(e.val)
  }

  lemma {:induction false} ReadsIffSound(x: ScVal)
    ensures ToDomain(x).Ok? <==> Sound(x)
    decreases x
  {
    if x.ScvVec? {
      if x.vec.Items? { ValuesRead(x.vec.items); }
    } else if x.ScvMap? {
      if x.entries.Entries? { EntriesRead(x.entries.entries); }
    } else if x.ScvContractInstance? {
      if x.instance.Instance? { StorageReads(x.instance.storage); }
    } else {
      hide XdrToPrim;
    }
  }

  lemma {:induction false} StorageReads(arm: StorageArm)
    ensures StorageToDomain(arm).Ok? <==> SoundStorage(arm)
    decreases arm
  {
    if arm.Storage? { EntriesRead(arm.stored); }
  }

  lemma {:induction false} ValuesRead(items: seq<ScVal>)
    ensures ToValues(items).Ok? <==> forall i | 0 <= i < |items| :: Sound(items[i])
    decreases items
  {
    if items != [] {
      ReadsIffSound(items[0]);
      ValuesRead(items[1..]);
      assert forall i | 0 < i < |items| :: items[i] == items[1..][i - 1];
    }
  }

  lemma {:induction false} EntriesRead(items: seq<Xdr.MapEntry>)
    ensures ToEntries(items).Ok? <==> forall i | 0 <= i < |items| :: SoundEntry(items[i])
    decreases items
  {
    if items != [] {
      EntryReads(items[0]);
      EntriesRead(items[1..]);
      assert forall i | 0 < i < |items| :: items[i] == items[1..][i - 1];
    }
  }

  lemma {:induction false} EntryReads(e: Xdr.MapEntry)
    ensures ToEntry(e).Ok? <==> SoundEntry(e)
    decreases e
  {
    ReadsIffSound(e.key);
    ReadsIffSound(e.val);
  }

  // ---- domain to XDR and back ------------------------------------------------------------------

  lemma {:induction false} DomainRoundTrip(v: DomVal)
    requires FromDomain(v).Ok?
    ensures ToDomain(FromDomain(v).value) == Ok(v)
    decreases v
  {
    hide PrimToXdr;
    match v
    case Leaf(p) => LeafRoundTrip(p);
    case Vec(values) => ValuesRoundTrip(values);
    case Map(entries) => EntriesRoundTrip(entries);
    case _ =>
  }

  lemma LeafRoundTrip(p: Prim)
    ensures ToDomain(PrimToXdr(p)) == Ok(Leaf(p))
  {
  }

  lemma {:induction false} PtrRoundTrip(p: DomPtr)
    requires FromPtr(p).Ok?
    ensures ToDomain(FromPtr(p).value) == Ok(p.v)
    decreases p
  {
    DomainRoundTrip(p.v);
  }

  lemma {:induction false} ValuesRoundTrip(values: seq<DomPtr>)
    requires FromValues(values).Ok?
    ensures ToValues(FromValues(values).value) == Ok(values)
    decreases values
  {
    if values != [] {
      PtrRoundTrip(values[0]);
      ValuesRoundTrip(values[1..]);
      assert FromValues(values).value[1..] == FromValues(values[1..]).value;
      assert [values[0]] + values[1..] == values;
    }
  }

  lemma {:induction false} EntriesRoundTrip(entries: seq<DomEntry>)
    requires FromEntries(entries).Ok?
    ensures ToEntries(FromEntries(entries).value) == Ok(entries)
    decreases entries
  {
    if entries != [] {
      EntryRoundTrip(entries[0]);
      EntriesRoundTrip(entries[1..]);
      assert FromEntries(entries).value[1..] == FromEntries(entries[1..]).value;
      assert [entries[0]] + entries[1..] == entries;
    }
  }

  lemma {:induction false} EntryRoundTrip(e: DomEntry)
    requires FromEntry(e).Ok?
    ensures ToEntry(FromEntry(e).value) == Ok(e)
    decreases e
  {
    PtrRoundTrip(e.key);
    PtrRoundTrip(e.val);
  }

  // ---- XDR to domain and back -------------------------------------------------------------------

  // A null vector or map reads as an empty one.
  function Normal(x: ScVal): ScVal
    decreases x
  {
    match x
    case ScvVec(arm) => ScvVec(if arm.NullVec? then Items([]) else NormalVec(arm))
    case ScvMap(arm) => ScvMap(if arm.NullMap? then Entries([]) else NormalMap(arm))
    case _ => x
  }

  function NormalVec(arm: VecArm): VecArm
    decreases arm
  {
    if arm.Items? then Items(NormalItems(arm.items)) else arm
  }

  function NormalMap(arm: MapArm): MapArm
    decreases arm
  {
    if arm.Entries? then Entries(NormalEntries(arm.entries)) else arm
  }

  function NormalItems(items: seq<ScVal>): seq<ScVal>
    decreases items
  {
    if items == [] then [] else [Normal(items[0])] + NormalItems(items[1..])
  }

  function NormalEntries(items: seq<Xdr.MapEntry>): seq<Xdr.MapEntry>
    decreases items
  {
    if items == [] then [] else [NormalEntry(items[0])] + NormalEntries(items[1..])
  }

  function NormalEntry(e: Xdr.MapEntry): Xdr.MapEntry
    decreases e
  {
    Xdr.MapEntry(Normal(e.key), Normal(e.val))
  }

  // The fragment both directions have: no arm is nil, every address is an account
  // or a contract, and nothing is ledger-only.
  predicate Shared(x: ScVal)
    decreases x
  {
    match x
    case ScvVec(arm) => SharedVec(arm)
    case ScvMap(arm) => SharedMap(arm)
    case ScvAddress(Some(AccountAddress(Some(_)))) => true
    case ScvAddress(Some(ContractAddress(Some(_)))) => true
    case _ => XdrToPrim(x).Some?
  }

  predicate SharedVec(arm: VecArm)
    decreases arm
  {
    !arm.NilVec? && (arm.Items? ==> forall i | 0 <= i < |arm.items| :: Shared(arm.items[i]))
  }

  predicate SharedMap(arm: MapArm)
    decreases arm
  {
    !arm.NilMap? && (arm.Entries? ==> forall i | 0 <= i < |arm.entries| :: SharedEntry(arm.entries[i]))
  }

  predicate SharedEntry(e: Xdr.MapEntry)
    decreases e
  {
    Shared(e.key) && Shared(e.val)
  }

  // The trees that can be read and written back are exactly the shared ones.
  lemma {:induction false} ReturnsIffShared(x: ScVal)
    ensures ToDomain(x).Ok? && FromDomain(ToDomain(x).value).Ok? <==> Shared(x)
    decreases x
  {
    if x.ScvVec? {
      if x.vec.Items? { ValuesReturn(x.vec.items); }
    } else if x.ScvMap? {
      if x.entries.Entries? { EntriesReturn(x.entries.entries); }
    } else if x.ScvAddress? || x.ScvError? || x.ScvContractInstance? {
      NodeReturns(x);
    } else {
      LeafReturns(x);
    }
  }

  lemma NodeReturns(x: ScVal)
    requires x.ScvAddress? || x.ScvError? || x.ScvContractInstance?
    ensures ToDomain(x).Ok? && FromDomain(ToDomain(x).value).Ok? <==> Shared(x)
  {
  }

  lemma LeafReturns(x: ScVal)
    requires !x.ScvVec? && !x.ScvMap? && !x.ScvAddress? && !x.ScvError? && !x.ScvContractInstance?
    ensures ToDomain(x).Ok? && FromDomain(ToDomain(x).value).Ok? <==> Shared(x)
  {
    hide PrimToXdr;
  }

  lemma {:induction false} ValuesReturn(items: seq<ScVal>)
    ensures ToValues(items).Ok? && FromValues(ToValues(items).value).Ok? <==>
              forall i | 0 <= i < |items| :: Shared(items[i])
    decreases items
  {
    if items != [] {
      ReturnsIffShared(items[0]);
      ValuesReturn(items[1..]);
      assert ToValues(items).Ok? ==> ToValues(items).value[1..] == ToValues(items[1..]).value;
      assert forall i | 0 < i < |items| :: items[i] == items[1..][i - 1];
    }
  }

  lemma {:induction false} EntriesReturn(items: seq<Xdr.MapEntry>)
    ensures ToEntries(items).Ok? && FromEntries(ToEntries(items).value).Ok? <==>
              forall i | 0 <= i < |items| :: SharedEntry(items[i])
    decreases items
  {
    if items != [] {
      EntryReturns(items[0]);
      EntriesReturn(items[1..]);
      assert ToEntries(items).Ok? ==> ToEntries(items).value[1..] == ToEntries(items[1..]).value;
      assert forall i | 0 < i < |items| :: items[i] == items[1..][i - 1];
    }
  }

  lemma {:induction false} EntryReturns(e: Xdr.MapEntry)
    ensures ToEntry(e).Ok? && FromEntry(ToEntry(e).value).Ok? <==> SharedEntry(e)
    decreases e
  {
    ReturnsIffShared(e.key);
    ReturnsIffShared(e.val);
  }

  // A shared tree read and written back is itself up to null versus empty; any
  // other fails on the way.
  lemma XdrRoundTrip(x: ScVal)
    ensures if Shared(x) then ToDomain(x).Ok? && FromDomain(ToDomain(x).value) == Ok(Normal(x))
            else ToDomain(x).Err? || FromDomain(ToDomain(x).value).Err?
  {
    ReturnsIffShared(x);
    if Shared(x) { ReturnsNormal(x); }
  }

  lemma {:induction false} ReturnsNormal(x: ScVal)
    requires ToDomain(x).Ok? && FromDomain(ToDomain(x).value).Ok?
    ensures FromDomain(ToDomain(x).value) == Ok(Normal(x))
    decreases x
  {
    if x.ScvVec? {
      if x.vec.Items? { ItemsRoundTrip(x.vec.items); }
    } else if x.ScvMap? {
      if x.entries.Entries? { MapRoundTrip(x.entries.entries); }
    } else {
      LeafNormal(x);
    }
  }

  lemma LeafNormal(x: ScVal)
    requires !x.ScvVec? && !x.ScvMap?
    requires ToDomain(x).Ok? && FromDomain(ToDomain(x).value).Ok?
    ensures FromDomain(ToDomain(x).value) == Ok(Normal(x))
  {
    PrimsInverse(Void, x);
    hide PrimToXdr, XdrToPrim;
  }

  lemma {:induction false} ItemsRoundTrip(items: seq<ScVal>)
    requires ToValues(items).Ok? && FromValues(ToValues(items).value).Ok?
    ensures FromValues(ToValues(items).value) == Ok(NormalItems(items))
    decreases items
  {
    if items != [] {
      assert ToValues(items).value[1..] == ToValues(items[1..]).value;
      ReturnsNormal(items[0]);
      ItemsRoundTrip(items[1..]);
    }
  }

  lemma {:induction false} MapRoundTrip(items: seq<Xdr.MapEntry>)
    requires ToEntries(items).Ok? && FromEntries(ToEntries(items).value).Ok?
    ensures FromEntries(ToEntries(items).value) == Ok(NormalEntries(items))
    decreases items
  {
    if items != [] {
      assert ToEntries(items).value[1..] == ToEntries(items[1..]).value;
      MapEntryRoundTrip(items[0]);
      MapRoundTrip(items[1..]);
    }
  }

  lemma {:induction false} MapEntryRoundTrip(e: Xdr.MapEntry)
    requires ToEntry(e).Ok? && FromEntry(ToEntry(e).value).Ok?
    ensures FromEntry(ToEntry(e).value) == Ok(NormalEntry(e))
    decreases e
  {
    ReturnsNormal(e.key);
    ReturnsNormal(e.val);
  }

  // ---- what a converted value is: the same kind with the same content ------------------------

  predicate MirrorsPrim(p: Prim, x: ScVal)
  {
    match x
    case ScvBool(b) => p.Bool? && b == Some(p.b)
    case ScvVoid => p.Void?
    case ScvU32(n) => p.U32? && n == Some(p.u32)
    case ScvI32(n) => p.I32? && n == Some(p.i32)
    case ScvU64(n) => p.U64? && n == Some(p.u64)
    case ScvI64(n) => p.I64? && n == Some(p.i64)
    case ScvTimepoint(n) => p.Timepoint? && n == Some(p.t)
    case ScvDuration(n) => p.Duration? && n == Some(p.d)
    case ScvU128(n) => p.U128? && n == Some(p.u128)
    case ScvI128(n) => p.I128? && n == Some(p.i128)
    case ScvU256(n) => p.U256? && n == Some(p.u256)
    case ScvI256(n) => p.I256? && n == Some(p.i256)
    case ScvBytes(b) => p.Bytes? && b == Some(p.bytes)
    case ScvString(t) => p.Str? && t == Some(p.str)
    case ScvSymbol(t) => p.Sym? && t == Some(p.sym)
    case _ => false
  }

  predicate MirrorsAddress(a: DomAddress, x: ScAddress)
  {
    match x
    case AccountAddress(k) => a.AccountID? && k.Some? && a.account == k.value
    case ContractAddress(k) => a.ContractID? && k.Some? && a.contract == k.value
    case MuxedAccountAddress(m) => a.MuxedAccount? && m.Some? && a.id == m.value.0 && a.ed25519 == m.value.1
    case ClaimableBalanceAddress(k) => a.ClaimableBalanceID? && k.Some? && a.balance == k.value
    case LiquidityPoolAddress(k) => a.LiquidityPoolID? && k.Some? && a.pool == k.value
    case MuxedContractAddress => false
  }

  // A contract error carries the contract's code, every other kind its own.
  predicate MirrorsError(d: DomError, e: ScError)
  {
    if e.kind == 0 then d.ContractError? && e.contractCode == Some(d.contractCode)
    else e.kind < 10 && d.HostError? && d.kind == e.kind && e.code == Some(d.code)
  }

  predicate MirrorsExecutable(d: DomExecutable, e: Executable)
  {
    if d.AssetExecutable? then e.StellarAsset? else e.Wasm? && e.hash.Some? && e.hash.value == d.hash
  }

  // Node by node and in order; an absent list and an empty one are alike.
  predicate Mirrors(v: DomVal, x: ScVal)
    decreases v
  {
    match v
    case Leaf(p) => MirrorsPrim(p, x)
    case Vec(values) =>
      x.ScvVec? && ((x.vec.NullVec? && values == []) || (x.vec.Items? && MirrorsAll(values, x.vec.items)))
    case Map(entries) =>
      && x.ScvMap?
      && ((x.entries.NullMap? && entries == []) || (x.entries.Entries? && MirrorsMap(entries, x.entries.entries)))
    case Address(a) => x.ScvAddress? && x.address.Some? && MirrorsAddress(a, x.address.value)
    case LedgerError(d) => x.ScvError? && x.error.Some? && MirrorsError(d, x.error.value)
    case LedgerInstance(d, storage) =>
      && x.ScvContractInstance? && x.instance.Instance? && MirrorsExecutable(d, x.instance.executable)
      && (match x.instance.storage
          case NoStorage => storage == []
          case Storage(stored) => MirrorsMap(storage, stored))
    case InstanceKey => x.ScvLedgerKeyContractInstance?
    case NonceKey(n) => x == ScvLedgerKeyNonce(Some(n))
    case _ => false
  }

  predicate MirrorsAll(values: seq<DomPtr>, items: seq<ScVal>)
    decreases values
  {
    |values| == |items| && forall i | 0 <= i < |values| :: MirrorsPtr(values[i], items[i])
  }

  predicate MirrorsMap(entries: seq<DomEntry>, items: seq<Xdr.MapEntry>)
    decreases entries
  {
    |entries| == |items| && forall i | 0 <= i < |entries| :: MirrorsEntry(entries[i], items[i])
  }

  predicate MirrorsEntry(e: DomEntry, item: Xdr.MapEntry)
    decreases e
  {
    MirrorsPtr(e.key, item.key) && MirrorsPtr(e.val, item.val)
  }

  predicate MirrorsPtr(p: DomPtr, x: ScVal)
    decreases p
  {
    p.Ptr? && Mirrors(p.v, x)
  }

  // Writing a domain value keeps it.
  lemma {:induction false} WritesMirror(v: DomVal)
    requires FromDomain(v).Ok?
    ensures Mirrors(v, FromDomain(v).value)
    decreases v
  {
    match v
    case Vec(values) => WritesMirrorAll(values);
    case Map(entries) => WritesMirrorMap(entries);
    case _ =>
  }

  lemma {:induction false} WritesMirrorAll(values: seq<DomPtr>)
    requires FromValues(values).Ok?
    ensures MirrorsAll(values, FromValues(values).value)
    decreases values
  {
    if values != [] {
      WritesMirrorPtr(values[0]);
      WritesMirrorAll(values[1..]);
      MirrorsCons(values, FromValues(values).value);
    }
  }

  lemma {:induction false} WritesMirrorMap(entries: seq<DomEntry>)
    requires FromEntries(entries).Ok?
    ensures MirrorsMap(entries, FromEntries(entries).value)
    decreases entries
  {
    if entries != [] {
      WritesMirrorEntry(entries[0]);
      WritesMirrorMap(entries[1..]);
      MirrorsMapCons(entries, FromEntries(entries).value);
    }
  }

  lemma {:induction false} WritesMirrorEntry(e: DomEntry)
    requires FromEntry(e).Ok?
    ensures MirrorsEntry(e, FromEntry(e).value)
    decreases e
  {
    assert FromPtr(e.key).Ok? && FromPtr(e.val).Ok?;
    WritesMirrorPtr(e.key);
    WritesMirrorPtr(e.val);
  }

  lemma {:induction false} WritesMirrorPtr(p: DomPtr)
    requires FromPtr(p).Ok?
    ensures MirrorsPtr(p, FromPtr(p).value)
    decreases p
  {
    WritesMirror(p.v);
  }

  lemma {:induction false} MirrorsCons(values: seq<DomPtr>, items: seq<ScVal>)
    requires values != [] && items != [] && MirrorsPtr(values[0], items[0]) && MirrorsAll(values[1..], items[1..])
    ensures MirrorsAll(values, items)
  {
    forall i | 0 <= i < |values| ensures MirrorsPtr(values[i], items[i]) {
      if i > 0 { assert MirrorsPtr(values[1..][i - 1], items[1..][i - 1]); }
    }
  }

  lemma {:induction false} MirrorsMapCons(entries: seq<DomEntry>, items: seq<Xdr.MapEntry>)
    requires entries != [] && items != [] && MirrorsEntry(entries[0], items[0]) && MirrorsMap(entries[1..], items[1..])
    ensures MirrorsMap(entries, items)
  {
    forall i | 0 <= i < |entries| ensures MirrorsEntry(entries[i], items[i]) {
      if i > 0 { assert MirrorsEntry(entries[1..][i - 1], items[1..][i - 1]); }
    }
  }

  // Reading a Soroban value, ledger-only ones included, keeps it.
  lemma {:induction false} ReadsMirror(x: ScVal)
    requires ToDomain(x).Ok?
    ensures Mirrors(ToDomain(x).value, x)
    decreases x
  {
    hide XdrToPrim, MirrorsPrim, AddressToDomain, MirrorsAddress, ErrorToDomain, MirrorsError;
    match x
    case ScvVec(arm) => ReadsMirrorVec(arm);
    case ScvMap(arm) => ReadsMirrorEntries(arm);
    case ScvContractInstance(Instance(executable, storage)) => ReadsMirrorInstance(executable, storage);
    case ScvAddress(Some(a)) => AddressMirrors(a);
    case ScvError(Some(e)) => ErrorMirrors(e);
    case _ => LeafMirrors(x);
  }

  lemma LeafMirrors(x: ScVal)
    ensures XdrToPrim(x).Some? ==> MirrorsPrim(XdrToPrim(x).value, x)
  {
  }

  lemma AddressMirrors(a: ScAddress)
    ensures AddressToDomain(a).Ok? ==> MirrorsAddress(AddressToDomain(a).value, a)
  {
  }

  lemma ErrorMirrors(e: ScError)
    ensures ErrorToDomain(e).Ok? ==> MirrorsError(ErrorToDomain(e).value, e)
  {
  }

  lemma {:induction false} ReadsMirrorVec(arm: VecArm)
    requires VecToDomain(arm).Ok?
    ensures Mirrors(VecToDomain(arm).value, ScvVec(arm))
    decreases arm
  {
    if arm.Items? { ReadsMirrorAll(arm.items); }
  }

  lemma {:induction false} ReadsMirrorEntries(arm: MapArm)
    requires MapToDomain(arm).Ok?
    ensures Mirrors(MapToDomain(arm).value, ScvMap(arm))
    decreases arm
  {
    if arm.Entries? { ReadsMirrorMap(arm.entries); }
  }

  lemma {:induction false} ReadsMirrorInstance(executable: Executable, storage: StorageArm)
    requires InstanceToDomain(Instance(executable, storage)).Ok?
    ensures var arm := Instance(executable, storage); Mirrors(InstanceToDomain(arm).value, ScvContractInstance(arm))
    decreases storage
  {
    assert StorageToDomain(storage).Ok?;
    if storage.Storage? { ReadsMirrorMap(storage.stored); }
  }

  lemma {:induction false} ReadsMirrorAll(items: seq<ScVal>)
    requires ToValues(items).Ok?
    ensures MirrorsAll(ToValues(items).value, items)
    decreases items
  {
    if items != [] {
      ReadsMirror(items[0]);
      ReadsMirrorAll(items[1..]);
      MirrorsCons(ToValues(items).value, items);
    }
  }

  lemma {:induction false} ReadsMirrorMap(items: seq<Xdr.MapEntry>)
    requires ToEntries(items).Ok?
    ensures MirrorsMap(ToEntries(items).value, items)
    decreases items
  {
    if items != [] {
      ReadsMirrorEntry(items[0]);
      ReadsMirrorMap(items[1..]);
      MirrorsMapCons(ToEntries(items).value, items);
    }
  }

  lemma {:induction false} ReadsMirrorEntry(e: Xdr.MapEntry)
    requires ToEntry(e).Ok?
    ensures MirrorsEntry(ToEntry(e).value, e)
    decreases e
  {
    ReadsMirror(e.key);
    ReadsMirror(e.val);
  }
}
