/**
 capabilities/fakes/scval.go: the depth-bounded converter of workflow-supplied
 arguments, against the relayer's.
 */
module BoundedConverter {
  import opened Wrappers
  import opened Words
  import opened Xdr
  import C = ScValConverters

  const MAX_SCVAL_DEPTH: nat := 64

  // The workflow's values: scalars are always set, a nil vector or map is an
  // empty one, and elements, entries and addresses may be nil.
  datatype Arg =
    | Leaf(prim: C.Prim)
    | NilParts
    | Vec(values: seq<ArgPtr>)
    | Map(entries: seq<EntryPtr>)
    | Address(address: ArgAddress)
    | Unsupported(tag: nat)

  datatype ArgPtr = Nil | Ptr(v: Arg)
  datatype EntryPtr = NilEntry | Entry(key: ArgPtr, val: ArgPtr)
  datatype ArgAddress = NilAddress | AccountId(account: seq<byte>) | ContractId(contract: seq<byte>)
    | NilMuxed | Muxed(id: uint64, ed25519: seq<byte>) | OtherAddress

  function AddressToXdr(a: ArgAddress): Result<ScAddress, string>
  {
    match a
    case AccountId(b) => if |b| != 32 then Err("account_id must be 32 bytes") else Ok(AccountAddress(Some(b)))
    case ContractId(b) => if |b| != 32 then Err("contract_id must be 32 bytes") else Ok(ContractAddress(Some(b)))
    case Muxed(id, b) => if |b| != 32 then Err("ed25519 must be 32 bytes") else Ok(MuxedAccountAddress(Some((id, b))))
    case _ => Err("unsupported or nil address")
  }

  function ToXdrAt(p: ArgPtr, depth: nat): Result<ScVal, string>
    decreases p
  {
    if depth > MAX_SCVAL_DEPTH then Err("nesting exceeds maximum depth")
    else if p.Nil? then Err("scVal is nil")
    else ArgToXdr(p.v, depth)
  }

  function ArgToXdr(v: Arg, depth: nat): Result<ScVal, string>
    decreases v
  {
    match v
    case Leaf(prim) => Ok(C.PrimToXdr(prim))
    case NilParts => Err("nil parts")
    case Vec(values) =>
      (match ValuesToXdr(values, depth + 1)
       case Err(e) => Err(e)
       case Ok(items) => Ok(ScvVec(Items(items))))
    case Map(entries) =>
      (match EntriesToXdr(entries, depth + 1)
       case Err(e) => Err(e)
       case Ok(items) => Ok(ScvMap(Entries(items))))
    case Address(a) =>
      (match AddressToXdr(a)
       case Err(e) => Err(e)
       case Ok(x) => Ok(ScvAddress(Some(x))))
    case Unsupported(_) => Err("unsupported type for contract arguments")
  }

  function ValuesToXdr(values: seq<ArgPtr>, depth: nat): Result<seq<ScVal>, string>
    decreases values
  {
    if values == [] then Ok([])
    else
      var head := ToXdrAt(values[0], depth);
      if head.Err? then Err(head.error)
      else
        match ValuesToXdr(values[1..], depth)
        case Err(e) => Err(e)
        case Ok(tail) => Ok([head.value] + tail)
  }

  function EntryToXdr(e: EntryPtr, depth: nat): Result<MapEntry, string>
    decreases e
  {
    if e.NilEntry? then Err("entry is nil")
    else
      var key := ToXdrAt(e.key, depth);
      var val := ToXdrAt(e.val, depth);
      if key.Err? then Err(key.error) else if val.Err? then Err(val.error) else Ok(MapEntry(key.value, val.value))
  }

  function EntriesToXdr(entries: seq<EntryPtr>, depth: nat): Result<seq<MapEntry>, string>
    decreases entries
  {
    if entries == [] then Ok([])
    else
      var head := EntryToXdr(entries[0], depth);
      if head.Err? then Err(head.error)
      else
        match EntriesToXdr(entries[1..], depth)
        case Err(e) => Err(e)
        case Ok(tail) => Ok([head.value] + tail)
  }

  // ---- the same tree in the relayer's domain type ----------------------------------------

  function AddressAsDomain(a: ArgAddress): C.DomVal
  {
    match a
    case AccountId(b) => C.Address(C.AccountID(b))
    case ContractId(b) => C.Address(C.ContractID(b))
    case Muxed(id, b) => C.Address(C.MuxedAccount(id, b))
    case _ => C.Unset
  }

  function AsDomain(v: Arg): C.DomVal
    decreases v
  {
    match v
    case Leaf(prim) => C.Leaf(prim)
    case NilParts => C.Unset
    case Vec(values) => C.Vec(ValuesAsDomain(values))
    case Map(entries) => C.Map(EntriesAsDomain(entries))
    case Address(a) => AddressAsDomain(a)
    case Unsupported(tag) => C.Other(tag)
  }

  function PtrAsDomain(p: ArgPtr): C.DomPtr
    decreases p
  {
    if p.Nil? then C.Nil else C.Ptr(AsDomain(p.v))
  }

  function ValuesAsDomain(values: seq<ArgPtr>): seq<C.DomPtr>
    decreases values
  {
    if values == [] then [] else [PtrAsDomain(values[0])] + ValuesAsDomain(values[1..])
  }

  function EntryAsDomain(e: EntryPtr): C.DomEntry
    decreases e
  {
    if e.NilEntry? then C.DomEntry(C.Nil, C.Nil) else C.DomEntry(PtrAsDomain(e.key), PtrAsDomain(e.val))
  }

  function EntriesAsDomain(entries: seq<EntryPtr>): seq<C.DomEntry>
    decreases entries
  {
    if entries == [] then [] else [EntryAsDomain(entries[0])] + EntriesAsDomain(entries[1..])
  }

  // ---- how deep a tree is, and whether it holds a muxed account -----------------------------

  function Max(a: int, b: int): int { if a < b then b else a }

  // The depth of the deepest node below, counting from this one.
  function Depth(p: ArgPtr): nat
    decreases p
  {
    if p.Nil? then 0 else ArgDepth(p.v)
  }

  function ArgDepth(v: Arg): nat
    decreases v
  {
    match v
    case Vec(values) => if values == [] then 0 else 1 + ValuesDepth(values)
    case Map(entries) => if entries == [] then 0 else 1 + EntriesDepth(entries)
    case _ => 0
  }

  function ValuesDepth(values: seq<ArgPtr>): nat
    decreases values
  {
    if values == [] then 0 else Max(Depth(values[0]), ValuesDepth(values[1..]))
  }

  function EntryDepth(e: EntryPtr): nat
    decreases e
  {
    if e.NilEntry? then 0 else Max(Depth(e.key), Depth(e.val))
  }

  function EntriesDepth(entries: seq<EntryPtr>): nat
    decreases entries
  {
    if entries == [] then 0 else Max(EntryDepth(entries[0]), EntriesDepth(entries[1..]))
  }

  predicate NoMuxed(p: ArgPtr)
    decreases p
  {
    p.Ptr? ==> NoMuxedIn(p.v)
  }

  predicate NoMuxedIn(v: Arg)
    decreases v
  {
    match v
    case Vec(values) => forall i | 0 <= i < |values| :: NoMuxed(values[i])
    case Map(entries) => forall i | 0 <= i < |entries| :: NoMuxedEntry(entries[i])
    case Address(a) => !a.Muxed?
    case _ => true
  }

  predicate NoMuxedEntry(e: EntryPtr)
    decreases e
  {
    e.Entry? ==> NoMuxed(e.key) && NoMuxed(e.val)
  }

  // ---- which trees either converter takes ---------------------------------------------------

  // No node is malformed: nothing is nil, every type is an argument type and every
  // address is an account, contract or muxed account of 32 bytes.
  predicate Acceptable(p: ArgPtr)
    decreases p
  {
    p.Ptr? && AcceptableArg(p.v)
  }

  predicate AcceptableArg(v: Arg)
    decreases v
  {
    match v
    case Leaf(_) => true
    case NilParts => false
    case Vec(values) => forall i | 0 <= i < |values| :: Acceptable(values[i])
    case Map(entries) => forall i | 0 <= i < |entries| :: AcceptableEntry(entries[i])
    case Address(a) =>
      (match a
       case AccountId(b) => |b| == 32
       case ContractId(b) => |b| == 32
       case Muxed(_, b) => |b| == 32
       case _ => false)
    case Unsupported(_) => false
  }

  predicate AcceptableEntry(e: EntryPtr)
    decreases e
  {
    e.Entry? && Acceptable(e.key) && Acceptable(e.val)
  }

  // The bounded converter takes exactly the acceptable trees that end by level 64.
  lemma {:induction false} TakesIff(p: ArgPtr, depth: nat)
    ensures ToXdrAt(p, depth).Ok? <==> Acceptable(p) && depth + Depth(p) <= MAX_SCVAL_DEPTH
    decreases p
  {
    if depth <= MAX_SCVAL_DEPTH && p.Ptr? { ArgTaken(p.v, depth); }
  }

  lemma {:induction false} ArgTaken(v: Arg, depth: nat)
    requires depth <= MAX_SCVAL_DEPTH
    ensures ArgToXdr(v, depth).Ok? <==> AcceptableArg(v) && depth + ArgDepth(v) <= MAX_SCVAL_DEPTH
    decreases v
  {
    match v {
      case Vec(values) => ValuesTaken(values, depth + 1);
      case Map(entries) => EntriesTaken(entries, depth + 1);
      case _ =>
    }
  }

  lemma {:induction false} ValuesTaken(values: seq<ArgPtr>, depth: nat)
    ensures ValuesToXdr(values, depth).Ok? <==>
            (forall i | 0 <= i < |values| :: Acceptable(values[i])) &&
              (values == [] || depth + ValuesDepth(values) <= MAX_SCVAL_DEPTH)
    decreases values
  {
    if values != [] {
      TakesIff(values[0], depth);
      ValuesTaken(values[1..], depth);
      assert ValuesDepth(values) == Max(Depth(values[0]), ValuesDepth(values[1..]));
      assert forall i | 0 < i < |values| :: values[i] == values[1..][i - 1];
    }
  }

  lemma {:induction false} EntryTaken(e: EntryPtr, depth: nat)
    ensures EntryToXdr(e, depth).Ok? <==> AcceptableEntry(e) && depth + EntryDepth(e) <= MAX_SCVAL_DEPTH
    decreases e
  {
    if e.Entry? {
      TakesIff(e.key, depth);
      TakesIff(e.val, depth);
    }
  }

  lemma {:induction false} EntriesTaken(entries: seq<EntryPtr>, depth: nat)
    ensures EntriesToXdr(entries, depth).Ok? <==>
            (forall i | 0 <= i < |entries| :: AcceptableEntry(entries[i]))
            && (entries == [] || depth + EntriesDepth(entries) <= MAX_SCVAL_DEPTH)
    decreases entries
  {
    if entries != [] {
      EntryTaken(entries[0], depth);
      EntriesTaken(entries[1..], depth);
      assert EntriesDepth(entries) == Max(EntryDepth(entries[0]), EntriesDepth(entries[1..]));
      assert forall i | 0 < i < |entries| :: entries[i] == entries[1..][i - 1];
    }
  }

  // The relayer takes exactly the acceptable trees without a muxed account, at any depth.
  lemma {:induction false} RelayerTakesIff(p: ArgPtr)
    ensures C.FromPtr(PtrAsDomain(p)).Ok? <==> Acceptable(p) && NoMuxed(p)
    decreases p
  {
    if p.Ptr? {
      match p.v {
        case Vec(values) => RelayerTakesValues(values);
        case Map(entries) => RelayerTakesEntries(entries);
        case _ =>
      }
    }
  }

  lemma {:induction false} RelayerTakesValues(values: seq<ArgPtr>)
    ensures C.FromValues(ValuesAsDomain(values)).Ok? <==> forall i | 0 <= i < |values| ::
              Acceptable(values[i]) && NoMuxed(values[i])
    decreases values
  {
    if values != [] {
      RelayerTakesIff(values[0]);
      RelayerTakesValues(values[1..]);
      var d := ValuesAsDomain(values);
      assert d[0] == PtrAsDomain(values[0]) && d[1..] == ValuesAsDomain(values[1..]);
      assert forall i | 0 < i < |values| :: values[i] == values[1..][i - 1];
    }
  }

  lemma {:induction false} RelayerTakesEntry(e: EntryPtr)
    ensures C.FromEntry(EntryAsDomain(e)).Ok? <==> AcceptableEntry(e) && NoMuxedEntry(e)
    decreases e
  {
    if e.Entry? {
      RelayerTakesIff(e.key);
      RelayerTakesIff(e.val);
    }
  }

  lemma {:induction false} RelayerTakesEntries(entries: seq<EntryPtr>)
    ensures C.FromEntries(EntriesAsDomain(entries)).Ok? <==>
            forall i | 0 <= i < |entries| :: AcceptableEntry(entries[i]) && NoMuxedEntry(entries[i])
    decreases entries
  {
    if entries != [] {
      RelayerTakesEntry(entries[0]);
      RelayerTakesEntries(entries[1..]);
      var d := EntriesAsDomain(entries);
      assert d[0] == EntryAsDomain(entries[0]) && d[1..] == EntriesAsDomain(entries[1..]);
      assert forall i | 0 < i < |entries| :: entries[i] == entries[1..][i - 1];
    }
  }

  // ---- agreement ------------------------------------------------------------------------------

  // Where both answer, they answer the same.
  lemma {:induction false} SameWhenBoth(p: ArgPtr, depth: nat)
    requires ToXdrAt(p, depth).Ok? && C.FromPtr(PtrAsDomain(p)).Ok?
    ensures ToXdrAt(p, depth) == C.FromPtr(PtrAsDomain(p))
    decreases p
  {
    match p.v {
      case Vec(values) => SameValues(values, depth + 1);
      case Map(entries) => SameEntries(entries, depth + 1);
      case _ =>
    }
  }

  lemma {:induction false} SameValues(values: seq<ArgPtr>, depth: nat)
    requires ValuesToXdr(values, depth).Ok? && C.FromValues(ValuesAsDomain(values)).Ok?
    ensures ValuesToXdr(values, depth) == C.FromValues(ValuesAsDomain(values))
    decreases values
  {
    if values != [] {
      var d := ValuesAsDomain(values);
      assert d[0] == PtrAsDomain(values[0]) && d[1..] == ValuesAsDomain(values[1..]);
      SameWhenBoth(values[0], depth);
      SameValues(values[1..], depth);
    }
  }

  lemma {:induction false} SameEntry(e: EntryPtr, depth: nat)
    requires EntryToXdr(e, depth).Ok? && C.FromEntry(EntryAsDomain(e)).Ok?
    ensures EntryToXdr(e, depth) == C.FromEntry(EntryAsDomain(e))
    decreases e
  {
    SameWhenBoth(e.key, depth);
    SameWhenBoth(e.val, depth);
  }

  lemma {:induction false} SameEntries(entries: seq<EntryPtr>, depth: nat)
    requires EntriesToXdr(entries, depth).Ok? && C.FromEntries(EntriesAsDomain(entries)).Ok?
    ensures EntriesToXdr(entries, depth) == C.FromEntries(EntriesAsDomain(entries))
    decreases entries
  {
    if entries != [] {
      var d := EntriesAsDomain(entries);
      assert d[0] == EntryAsDomain(entries[0]) && d[1..] == EntriesAsDomain(entries[1..]);
      SameEntry(entries[0], depth);
      SameEntries(entries[1..], depth);
    }
  }

  // Every tree: the bounded converter refuses malformed and too deep ones; on the
  // others the relayer answers the same iff no muxed account is inside, and else
  // refuses.
  lemma BoundedVersusRelayer(p: ArgPtr)
    ensures var bounded, relayer := ToXdrAt(p, 0), C.FromPtr(PtrAsDomain(p));
            && (bounded.Ok? <==> Acceptable(p) && Depth(p) <= MAX_SCVAL_DEPTH)
            && (bounded.Ok? ==> if NoMuxed(p) then relayer == bounded else relayer.Err?)
            && (bounded.Err? && relayer.Ok? ==> Depth(p) > MAX_SCVAL_DEPTH)
  {
    TakesIff(p, 0);
    RelayerTakesIff(p);
    if Acceptable(p) && NoMuxed(p) && Depth(p) <= MAX_SCVAL_DEPTH { SameWhenBoth(p, 0); }
  }

  // A muxed account is accepted here and refused by the relayer.
  lemma MuxedAccountsDiffer(id: uint64, key: Hash32)
    ensures var p := Ptr(Address(Muxed(id, key)));
            && ToXdrAt(p, 0) == Ok(ScvAddress(Some(MuxedAccountAddress(Some((id, key))))))
            && C.FromPtr(PtrAsDomain(p)).Err?
  {
  }

  // ---- what the bounded converter writes, muxed accounts included ------------------------------

  lemma {:induction false} BoundedMirrors(p: ArgPtr, depth: nat)
    requires ToXdrAt(p, depth).Ok?
    ensures C.MirrorsPtr(PtrAsDomain(p), ToXdrAt(p, depth).value)
    decreases p
  {
    match p.v
    case Vec(values) => BoundedMirrorsAll(values, depth + 1);
    case Map(entries) => BoundedMirrorsMap(entries, depth + 1);
    case _ =>
  }

  lemma {:induction false} BoundedMirrorsAll(values: seq<ArgPtr>, depth: nat)
    requires ValuesToXdr(values, depth).Ok?
    ensures C.MirrorsAll(ValuesAsDomain(values), ValuesToXdr(values, depth).value)
    decreases values
  {
    if values != [] {
      BoundedMirrors(values[0], depth);
      BoundedMirrorsAll(values[1..], depth);
      C.MirrorsCons(ValuesAsDomain(values), ValuesToXdr(values, depth).value);
    }
  }

  lemma {:induction false} BoundedMirrorsMap(entries: seq<EntryPtr>, depth: nat)
    requires EntriesToXdr(entries, depth).Ok?
    ensures C.MirrorsMap(EntriesAsDomain(entries), EntriesToXdr(entries, depth).value)
    decreases entries
  {
    if entries != [] {
      BoundedMirrorsEntry(entries[0], depth);
      BoundedMirrorsMap(entries[1..], depth);
      C.MirrorsMapCons(EntriesAsDomain(entries), EntriesToXdr(entries, depth).value);
    }
  }

  lemma {:induction false} BoundedMirrorsEntry(e: EntryPtr, depth: nat)
    requires EntryToXdr(e, depth).Ok?
    ensures C.MirrorsEntry(EntryAsDomain(e), EntryToXdr(e, depth).value)
    decreases e
  {
    BoundedMirrors(e.key, depth);
    BoundedMirrors(e.val, depth);
  }
}
