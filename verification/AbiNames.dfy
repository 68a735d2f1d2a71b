/** Names of ABI types for Go types: which ABI type a Go type stands for, and that the name tells. */
module AbiNames {
  import opened Basics
  import opened Decimals

  datatype Width = W8 | W16 | W32 | W64

  datatype TypeName = Unnamed | Uint256Int | Named(name: string)

  /** A struct is assignable to ABIInt256, else convertible to big.Int, or neither. */
  datatype StructClass = Int256Struct | BigIntStruct | OtherStruct

  /** Go types as reflection shows them; integer types may be defined types of their own. */
  datatype GoType =
    | BoolKind
    | StringKind
    | UintKind(width: Width, defined: bool)
    | IntKind(width: Width)
    | NativeIntKind
    | NativeUintKind
    | ArrayKind(name: TypeName, len: nat, elem: GoType)
    | SliceKind(elem: GoType)
    | StructKind(cls: StructClass)
    | PointerKind(elem: GoType)
    | OtherKind

  function Bits(w: Width): nat {
    match w case W8 => 8 case W16 => 16 case W32 => 32 case W64 => 64
  }

  /** uint256.Int itself, or the type it is defined as, which can be assigned to it. */
  predicate IsUint256(t: GoType)
    requires t.ArrayKind?
  {
    t.name.Uint256Int? || (t.name.Unnamed? && t.len == 4 && t.elem == UintKind(W64, false))
  }

  predicate IsByte(t: GoType) {
    t.UintKind? && t.width == W8
  }

  /** The type definition and the internal type, or an error. */
  function GoTypeToSolidityType(t: GoType): Option<(string, string)> {
    match t
    case NativeIntKind => None
    case NativeUintKind => None
    case BoolKind => Some(("bool", ""))
    case StringKind => Some(("string", ""))
    case UintKind(w, _) => Some(("uint" + PrintNat(Bits(w)), ""))
    case IntKind(w) => Some(("int" + PrintNat(Bits(w)), ""))
    case ArrayKind(name, len, elem) =>
      if IsUint256(t) then Some(("uint256", ""))
      else if IsByte(elem) then
        if len == 20 && name == Named("Address") then Some(("address", ""))
        else if len > 32 then None
        else Some(("bytes" + PrintNat(len), ""))
      else
        var (elemType, internalType) :- GoTypeToSolidityType(elem);
        if internalType != "" then None
        else Some((elemType + "[" + PrintNat(len) + "]", ""))
    case SliceKind(elem) =>
      if IsByte(elem) then Some(("bytes", ""))
      else
        var (elemType, internalType) :- GoTypeToSolidityType(elem);
        if internalType != "" then None
        else Some((elemType + "[]", ""))
    case StructKind(cls) =>
      if cls == Int256Struct then Some(("int256", ""))
      else if cls == BigIntStruct then Some(("uint256", ""))
      else None
    case PointerKind(elem) => GoTypeToSolidityType(elem)
    case OtherKind => None
  }

  // ----- ABI types -----

  datatype AbiType =
    | BoolType
    | StringType
    | UintType(bits: nat)
    | IntType(bits: nat)
    | AddressType
    | FixedBytesType(size: nat)
    | BytesType
    | ArrayType(elem: AbiType, len: nat)
    | SliceType(elem: AbiType)

  /** The ABI type a Go type stands for. */
  function Erase(t: GoType): Option<AbiType> {
    match t
    case BoolKind => Some(BoolType)
    case StringKind => Some(StringType)
    case UintKind(w, _) => Some(UintType(Bits(w)))
    case IntKind(w) => Some(IntType(Bits(w)))
    case ArrayKind(name, len, elem) =>
      if IsUint256(t) then Some(UintType(256))
      else if !IsByte(elem) then
        var a :- Erase(elem);
        Some(ArrayType(a, len))
      else if name == Named("Address") && len == 20 then Some(AddressType)
      else if len <= 32 then Some(FixedBytesType(len))
      else None
    case SliceKind(elem) =>
      if IsByte(elem) then Some(BytesType)
      else
        var a :- Erase(elem);
        Some(SliceType(a))
    case StructKind(Int256Struct) => Some(IntType(256))
    case StructKind(BigIntStruct) => Some(UintType(256))
    case PointerKind(elem) => Erase(elem)
    case _ => None
  }

  function NameOf(a: AbiType): string {
    match a
    case BoolType => "bool"
    case StringType => "string"
    case UintType(bits) => "uint" + PrintNat(bits)
    case IntType(bits) => "int" + PrintNat(bits)
    case AddressType => "address"
    case FixedBytesType(size) => "bytes" + PrintNat(size)
    case BytesType => "bytes"
    case ArrayType(elem, len) => NameOf(elem) + "[" + PrintNat(len) + "]"
    case SliceType(elem) => NameOf(elem) + "[]"
  }

  // ----- reading names -----

  /** Where the last opening bracket is. */
  function LastOpen(s: string): (r: Option<nat>)
    ensures r.Some? ==> r.value < |s|
  {
    if s == [] then None
    else if s[|s| - 1] == '[' then Some(|s| - 1)
    else LastOpen(s[..|s| - 1])
  }

  function Numeral(s: string): Option<nat> {
    if s == [] || !AllDigits(s) then None else Some(ValueOf(s))
  }

  function ReadBase(s: string): Option<AbiType> {
    if s == "bool" then Some(BoolType)
    else if s == "string" then Some(StringType)
    else if s == "address" then Some(AddressType)
    else if s == "bytes" then Some(BytesType)
    else if "bytes" <= s then
      var n :- Numeral(s[5..]);
      Some(FixedBytesType(n))
    else if "uint" <= s then
      var n :- Numeral(s[4..]);
      Some(UintType(n))
    else if "int" <= s then
      var n :- Numeral(s[3..]);
      Some(IntType(n))
    else None
  }

  /** An ABI type read from its name, outermost brackets first. */
  function ReadName(s: string): Option<AbiType>
    decreases |s|
  {
    if s == [] || s[|s| - 1] != ']' then ReadBase(s)
    else
      var i :- LastOpen(s);
      var elem :- ReadName(s[..i]);
      var inside := s[i + 1..|s| - 1];
      if inside == [] then Some(SliceType(elem))
      else
        var n :- Numeral(inside);
        Some(ArrayType(elem, n))
  }

  lemma {:induction false} LastOpenIs(p: string, inside: string)
    requires '[' !in inside
    ensures LastOpen(p + "[" + inside) == Some(|p|)
  {
    var s := p + "[" + inside;
    if inside != [] {
      assert s[..|s| - 1] == p + "[" + inside[..|inside| - 1];
      LastOpenIs(p, inside[..|inside| - 1]);
    }
  }

  lemma ReadBracketed(p: string, inside: string)
    requires '[' !in inside
    ensures var s := p + "[" + inside + "]";
            LastOpen(s) == Some(|p|) && s[..|p|] == p && s[|p| + 1..|s| - 1] == inside
  {
    LastOpenIs(p, inside + "]");
    assert p + "[" + (inside + "]") == p + "[" + inside + "]";
  }

  lemma ReadsNumbered(prefix: string, n: nat)
    ensures Numeral((prefix + PrintNat(n))[|prefix|..]) == Some(n)
    ensures prefix <= prefix + PrintNat(n) && (prefix + PrintNat(n))[|prefix + PrintNat(n)| - 1] != ']'
    ensures |prefix + PrintNat(n)| > |prefix| && IsDigit((prefix + PrintNat(n))[|prefix|])
  {
    PrintNatReads(n);
    assert (prefix + PrintNat(n))[|prefix|..] == PrintNat(n);
    assert IsDigit(PrintNat(n)[0]) && IsDigit(PrintNat(n)[|PrintNat(n)| - 1]);
  }

  lemma UintReads(bits: nat)
    ensures ReadName("uint" + PrintNat(bits)) == Some(UintType(bits))
  {
    var s := "uint" + PrintNat(bits);
    ReadsNumbered("uint", bits);
    assert s[0] == 'u' && s[|s| - 1] != ']';
  }

  lemma IntReads(bits: nat)
    ensures ReadName("int" + PrintNat(bits)) == Some(IntType(bits))
  {
    var s := "int" + PrintNat(bits);
    ReadsNumbered("int", bits);
    assert s[0] == 'i' && s[|s| - 1] != ']';
  }

  lemma FixedBytesReads(size: nat)
    ensures ReadName("bytes" + PrintNat(size)) == Some(FixedBytesType(size))
  {
    var s := "bytes" + PrintNat(size);
    ReadsNumbered("bytes", size);
    assert s[1] == 'y' && |s| > 5 && s[|s| - 1] != ']';
  }

  lemma BaseReads(a: AbiType)
    requires a.BoolType? || a.StringType? || a.AddressType? || a.BytesType?
    ensures ReadName(NameOf(a)) == Some(a)
  {
  }

  lemma ArrayReads(elem: AbiType, len: nat)
    requires ReadName(NameOf(elem)) == Some(elem)
    ensures ReadName(NameOf(ArrayType(elem, len))) == Some(ArrayType(elem, len))
  {
    PrintNatReads(len);
    ReadBracketed(NameOf(elem), PrintNat(len));
  }

  lemma SliceReads(elem: AbiType)
    requires ReadName(NameOf(elem)) == Some(elem)
    ensures ReadName(NameOf(SliceType(elem))) == Some(SliceType(elem))
  {
    ReadBracketed(NameOf(elem), "");
    assert NameOf(elem) + "[" + "" + "]" == NameOf(elem) + "[]";
  }

  /** The name of an ABI type reads back as that type. */
  lemma {:induction false} NameReads(a: AbiType)
    ensures ReadName(NameOf(a)) == Some(a)
  {
    match a
    case ArrayType(elem, len) =>
      NameReads(elem);
      ArrayReads(elem, len);
    case SliceType(elem) =>
      NameReads(elem);
      SliceReads(elem);
    case UintType(bits) => UintReads(bits);
    case IntType(bits) => IntReads(bits);
    case FixedBytesType(size) => FixedBytesReads(size);
    case _ => BaseReads(a);
  }

  /** The converter names the ABI type a Go type stands for, if any, and never an internal type. */
  lemma {:induction false} ConverterNames(t: GoType)
    ensures GoTypeToSolidityType(t) ==
            match Erase(t)
            case None => None
            case Some(a) => Some((NameOf(a), ""))
  {
    assert PrintNat(25) == "25";
    assert "uint" + PrintNat(256) == "uint256" && "int" + PrintNat(256) == "int256";
    match t
    case ArrayKind(_, _, elem) => ConverterNames(elem);
    case SliceKind(elem) => ConverterNames(elem);
    case PointerKind(elem) => ConverterNames(elem);
    case _ =>
  }

  /**
   ABI names are unambiguous: the name of a Go type reads back as the ABI type it stands for, and two Go
   types get the same name exactly if they stand for the same ABI type.
   */
  lemma NamesUnambiguous(t: GoType, u: GoType)
    ensures GoTypeToSolidityType(t).Some? ==> Erase(t).Some? && ReadName(GoTypeToSolidityType(t).value.0) == Erase(t)
    ensures GoTypeToSolidityType(t) == GoTypeToSolidityType(u) <==> Erase(t) == Erase(u)
  {
    ConverterNames(t);
    ConverterNames(u);
    if Erase(t).Some? {
      NameReads(Erase(t).value);
    }
    if Erase(u).Some? {
      NameReads(Erase(u).value);
    }
  }

  function WidthText(w: Width): string {
    match w case W8 => "8" case W16 => "16" case W32 => "32" case W64 => "64"
  }

  lemma WidthPrinted(w: Width)
    ensures PrintNat(Bits(w)) == WidthText(w)
  {
    match w
    case W8 =>
    case W16 => assert PrintNat(16) == PrintNat(1) + "6";
    case W32 => assert PrintNat(32) == PrintNat(3) + "2";
    case W64 => assert PrintNat(64) == PrintNat(6) + "4";
  }

  /** Go integers are named by their sign and width, also those defined as types of their own. */
  lemma IntegerNames(w: Width, defined: bool)
    ensures GoTypeToSolidityType(UintKind(w, defined)) == Some(("uint" + WidthText(w), ""))
    ensures GoTypeToSolidityType(IntKind(w)) == Some(("int" + WidthText(w), ""))
    ensures GoTypeToSolidityType(NativeIntKind).None? && GoTypeToSolidityType(NativeUintKind).None?
  {
    WidthPrinted(w);
  }

  /** The names of the other Go types that stand for themselves, of the 256-bit integers, and of addresses. */
  lemma OtherNames(defined: bool)
    ensures GoTypeToSolidityType(BoolKind) == Some(("bool", ""))
    ensures GoTypeToSolidityType(StringKind) == Some(("string", ""))
    ensures GoTypeToSolidityType(StructKind(Int256Struct)) == Some(("int256", ""))
    ensures GoTypeToSolidityType(StructKind(BigIntStruct)) == Some(("uint256", ""))
    ensures GoTypeToSolidityType(StructKind(OtherStruct)).None?
    ensures GoTypeToSolidityType(ArrayKind(Named("Address"), 20, UintKind(W8, defined))) == Some(("address", ""))
    ensures GoTypeToSolidityType(ArrayKind(Uint256Int, 4, UintKind(W64, false))) == Some(("uint256", ""))
    ensures GoTypeToSolidityType(ArrayKind(Unnamed, 4, UintKind(W64, false))) == Some(("uint256", ""))
    ensures GoTypeToSolidityType(SliceKind(UintKind(W8, defined))) == Some(("bytes", ""))
  {
  }

  /** Byte arrays of up to 32 bytes that are not addresses are fixed-size bytes; longer ones have no ABI type. */
  lemma ByteArrayNames(name: TypeName, len: nat, defined: bool)
    requires !name.Uint256Int? && !(len == 20 && name == Named("Address"))
    ensures GoTypeToSolidityType(ArrayKind(name, len, UintKind(W8, defined))) ==
            if len <= 32 then Some(("bytes" + PrintNat(len), "")) else None
  {
  }
}
