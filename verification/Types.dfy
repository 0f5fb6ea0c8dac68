/** A finite table of Go types with named references, so that types may be cyclic. */
module Types {
  import opened Words

  type TypeId = nat

  /** The kinds that have a codec of their own. */
  datatype Prim =
    | Bool | Int8 | Int16 | Int32 | Uint8 | Uint16 | Uint32 | Hyper | Uhyper
    | Float | Double | Complex64 | Complex128

  datatype Type =
    | Basic(prim: Prim)
    | PlatformInt | PlatformUint | Uintptr  // valid Go integers without a codec
    | Interface
    | NoCodec                               // chan, func, unsafe pointers
    | String
    | Pointer(elem: TypeId)
    | Array(len: nat, elem: TypeId)
    | Slice(elem: TypeId)
    | Map(key: TypeId, elem: TypeId)
    | Struct(name: string, fields: seq<Decl>)

  datatype Decl = Decl(name: string, t: TypeId, tag: StructTag)

  /** A struct tag after trimming, splitting on '/' and number parsing. */
  datatype StructTag = Dash | Parts(head: UnionPart, layers: seq<Part>)

  datatype UnionPart = NoUnion | Switch | False | True | Default | Cases(values: seq<u32>) | BadCases

  datatype Part = Blank | Opt | Opaque | Len(len: u32) | MaxLen(max: u32) | BadLen | BadMaxLen | Unknown

  datatype TagError =
    | SwitchMisplaced | SwitchType | NotAUnion | BadNumber | NeedsUnionTag
    | CannotBeOpt | NotBytes | LenOnArray | LenOnType | MaxLenOnType | UnknownPart | TrailingTags

  type Table = map<TypeId, Type>

  function Lookup(tbl: Table, t: TypeId): Type { if t in tbl then tbl[t] else NoCodec }

  predicate HasElem(ty: Type) { ty.Pointer? || ty.Array? || ty.Slice? || ty.Map? }

  predicate IsOctet(ty: Type) { ty == Basic(Int8) || ty == Basic(Uint8) }

  predicate ValidForUnionSwitch(ty: Type)
  {
    match ty
    case Basic(p) => p in {Bool, Int8, Int16, Int32, Hyper, Uint8, Uint16, Uint32}
    case PlatformInt => true
    case PlatformUint => true
    case _ => false
  }

  predicate CanBeOpt(ty: Type) { ty.Interface? || ty.Pointer? }
}
