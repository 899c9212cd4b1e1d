// The 32-bit filter word of a measurement header: the packed word and the
// bit fields that share its memory, and the masks filters are built from.
module Header {

  // The bit-field view of the filter word, least significant field first.
  datatype FilterFields = FilterFields(
    baseType: bv8,
    extType: bv8,
    dataFormat: bv3,
    encoding: bv4,
    compression: bv3,
    timestamp: bv3,
    reserved: bv3)

  // The 16 flag bits that occupy the upper half of the word.
  function FlagsBits(f: FilterFields): bv32 {
    (f.dataFormat as bv32)
    | ((f.encoding as bv32) << 3)
    | ((f.compression as bv32) << 7)
    | ((f.timestamp as bv32) << 10)
    | ((f.reserved as bv32) << 13)
  }

  function Pack(f: FilterFields): bv32 {
    (f.baseType as bv32) | ((f.extType as bv32) << 8) | (FlagsBits(f) << 16)
  }

  function Unpack(w: bv32): FilterFields {
    FilterFields(
      (w & 0xFF) as bv8,
      ((w >> 8) & 0xFF) as bv8,
      ((w >> 16) & 0x7) as bv3,
      ((w >> 19) & 0xF) as bv4,
      ((w >> 23) & 0x7) as bv3,
      ((w >> 26) & 0x7) as bv3,
      ((w >> 29) & 0x7) as bv3)
  }

  // The word and the fields are two views of the same memory.
  lemma PackUnpack(w: bv32, f: FilterFields)
    ensures Pack(Unpack(w)) == w
    ensures Unpack(Pack(f)) == f
    ensures Pack(f) == w <==> f == Unpack(w)
  {
  }

  // One constructor per STEP_MES_MASK_* pair.
  datatype Field =
    FullType | BaseType | ExtType | Flags | Format | Encoding | Compression | Timestamp

  // The field's width as a mask of low bits, and a value moved to its position.
  function Width(x: Field): bv32 {
    match x
    case FullType => 0xFFFF
    case BaseType => 0xFF
    case ExtType => 0xFF
    case Flags => 0xFFFF
    case Format => 0x7
    case Encoding => 0xF
    case Compression => 0x7
    case Timestamp => 0x7
  }

  function Place(x: Field, v: bv32): bv32 {
    match x
    case FullType => v << 0
    case BaseType => v << 0
    case ExtType => v << 8
    case Flags => v << 16
    case Format => v << 16
    case Encoding => v << 19
    case Compression => v << 23
    case Timestamp => v << 26
  }

  function Mask(x: Field): bv32 {
    Place(x, Width(x))
  }

  // The masks, from the lowest bit to the highest: they cover the word but for
  // its three reserved bits, each bit once.
  lemma MasksPartitionTheWord()
    ensures Mask(BaseType) == 0x0000_00FF && Mask(ExtType) == 0x0000_FF00
    ensures Mask(Format) == 0x0007_0000 && Mask(Encoding) == 0x0078_0000
    ensures Mask(Compression) == 0x0380_0000 && Mask(Timestamp) == 0x1C00_0000
    ensures Mask(FullType) == Mask(BaseType) + Mask(ExtType) && Mask(Flags) == !Mask(FullType)
    ensures Mask(FullType) + Mask(Format) + Mask(Encoding) + Mask(Compression) + Mask(Timestamp) == 0x1FFF_FFFF
  {
  }

  // What reading the named field of the struct yields.
  function Value(x: Field, f: FilterFields): bv32 {
    match x
    case FullType => (f.baseType as bv32) | ((f.extType as bv32) << 8)
    case BaseType => f.baseType as bv32
    case ExtType => f.extType as bv32
    case Flags => FlagsBits(f)
    case Format => f.dataFormat as bv32
    case Encoding => f.encoding as bv32
    case Compression => f.compression as bv32
    case Timestamp => f.timestamp as bv32
  }

  // Reading the field out of the packed word.
  function Get(x: Field, w: bv32): bv32 {
    match x
    case FullType => w & 0xFFFF
    case BaseType => w & 0xFF
    case ExtType => (w >> 8) & 0xFF
    case Flags => w >> 16
    case Format => (w >> 16) & 0x7
    case Encoding => (w >> 19) & 0xF
    case Compression => (w >> 23) & 0x7
    case Timestamp => (w >> 26) & 0x7
  }

  lemma GetReadsTheField(x: Field, w: bv32)
    ensures Get(x, w) == Value(x, Unpack(w))
  {
    match x
    case FullType => case BaseType => case ExtType => case Flags =>
    case Format => case Encoding => case Compression => case Timestamp =>
  }
}
