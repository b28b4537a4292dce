/** The closed enumeration of the twelve SMI base types of smi/type.go, with
    their canonical names and their descriptions from section 7.1 of
    RFC 2578. */
module SmiType {
  import opened Wrappers

  // The descriptions, each the opening sentence of its paragraph in section
  // 7.1 of RFC 2578, with the source's line breaks written as single spaces.

  const IntegerDescription: string :=
    "The Integer32 type represents integer-valued information between -2^31 and 2^31-1 inclusive (-2147483648 to 2147483647 decimal)."
  const OctetStringDescription: string :=
    "The OCTET STRING type represents arbitrary binary or textual data."
  const ObjectIdentifierDescription: string :=
    "The OBJECT IDENTIFIER type represents administratively assigned names."
  const BitsDescription: string :=
    "The BITS construct represents an enumeration of named bits."
  const IpAddressDescription: string :=
    "The IpAddress type represents a 32-bit internet address."
  const Counter32Description: string :=
    "The Counter32 type represents a non-negative integer which monotonically increases until it reaches a maximum value of 2^32-1 (4294967295 decimal), when it wraps around and starts increasing again from zero."
  const Gauge32Description: string :=
    "The Gauge32 type represents a non-negative integer, which may increase or decrease, but shall never exceed a maximum value, nor fall below a minimum value."
  const TimeTicksDescription: string :=
    "The TimeTicks type represents a non-negative integer which represents the time, modulo 2^32 (4294967296 decimal), in hundredths of a second between two epochs."
  const OpaqueDescription: string :=
    "The Opaque type is provided solely for backward-compatibility, and shall not be used for newly-defined object types."
  const Counter64Description: string :=
    "The Counter64 type represents a non-negative integer which monotonically increases until it reaches a maximum value of 2^64-1 (18446744073709551615 decimal), when it wraps around and starts increasing again from zero."
  const Unsigned32Description: string :=
    "The Unsigned32 type represents integer-valued information between 0 and 2^32-1 inclusive (0 to 4294967295 decimal)."

  /** The base type of any SMI type, in declaration order. Being a closed
      datatype, no value lies outside the twelve members, so the source's
      panicking default branches cannot be reached. */
  datatype BaseType =
    | Integer32
    | Integer
    | OctetString
    | ObjectIdentifier
    | Bits
    | IpAddress
    | Counter32
    | Gauge32
    | TimeTicks
    | Opaque
    | Counter64
    | Unsigned32
  {
    /** The iota value of the member in the source's int encoding. */
    function Ordinal(): (n: nat)
      ensures n < 12
    {
      match this
      case Integer32 => 0
      case Integer => 1
      case OctetString => 2
      case ObjectIdentifier => 3
      case Bits => 4
      case IpAddress => 5
      case Counter32 => 6
      case Gauge32 => 7
      case TimeTicks => 8
      case Opaque => 9
      case Counter64 => 10
      case Unsigned32 => 11
    }

    /** The canonical SMI identifier of the member. */
    function Name(): (r: string)
      ensures |r| > 0
    {
      match this
      case Integer32 => "Integer32"
      case Integer => "Integer"
      case OctetString => "OctetString"
      case ObjectIdentifier => "ObjectIdentifier"
      case Bits => "Bits"
      case IpAddress => "IpAddress"
      case Counter32 => "Counter32"
      case Gauge32 => "Gauge32"
      case TimeTicks => "TimeTicks"
      case Opaque => "Opaque"
      case Counter64 => "Counter64"
      case Unsigned32 => "Unsigned32"
    }

    /** The normative description; Integer32 and Integer share one. */
    function Description(): (r: string)
      ensures |r| > 0
    {
      match this
      case Integer32 | Integer => IntegerDescription
      case OctetString => OctetStringDescription
      case ObjectIdentifier => ObjectIdentifierDescription
      case Bits => BitsDescription
      case IpAddress => IpAddressDescription
      case Counter32 => Counter32Description
      case Gauge32 => Gauge32Description
      case TimeTicks => TimeTicksDescription
      case Opaque => OpaqueDescription
      case Counter64 => Counter64Description
      case Unsigned32 => Unsigned32Description
    }

    /** A base type is its own base type. */
    function BaseType(): (r: BaseType)
      ensures r == this && r.Name() == Name()
    {
      this
    }

    /** The text form of a base type is its name. */
    function String(): (r: string)
      ensures r == Name()
    {
      Name()
    }
  }

  /** The member with a given value of the int encoding; None stands for the
      values on which the source's Name and Description panic. */
  function FromOrdinal(n: int): (r: Option<BaseType>)
    ensures r.Some? <==> 0 <= n < 12
    ensures r.Some? ==> r.value.Ordinal() == n
  {
    if n == 0 then Some(Integer32)
    else if n == 1 then Some(Integer)
    else if n == 2 then Some(OctetString)
    else if n == 3 then Some(ObjectIdentifier)
    else if n == 4 then Some(Bits)
    else if n == 5 then Some(IpAddress)
    else if n == 6 then Some(Counter32)
    else if n == 7 then Some(Gauge32)
    else if n == 8 then Some(TimeTicks)
    else if n == 9 then Some(Opaque)
    else if n == 10 then Some(Counter64)
    else if n == 11 then Some(Unsigned32)
    else None
  }

  /** The int encoding is a bijection between the members and 0..11. */
  lemma OrdinalRoundTrip(b: BaseType)
    ensures FromOrdinal(b.Ordinal()) == Some(b)
  {
  }

  /** Names are pairwise distinct, so a name identifies its member. */
  lemma NameInjective(a: BaseType, b: BaseType)
    ensures a.Name() == b.Name() ==> a == b
  {
    if a.Name() == b.Name() {
      // names of equal length differ in their first or next-to-last letter
      assert |a.Name()| == |b.Name()| && a.Name()[0] == b.Name()[0];
      assert a.Name()[|a.Name()| - 2] == b.Name()[|b.Name()| - 2];
    }
  }

  /** Integer32 and Integer, which RFC 2578 calls indistinguishable, share
      their description; every other pair of members has distinct ones. */
  lemma DescriptionShared(a: BaseType, b: BaseType)
    ensures a.Description() == b.Description() <==>
      a == b || ((a.Integer32? || a.Integer?) && (b.Integer32? || b.Integer?))
  {
    if a.Description() == b.Description() {
      // the eleven distinct texts have eleven distinct lengths
      assert |a.Description()| == |b.Description()|;
    }
  }

  lemma NameExamples()
    ensures Counter32.Name() == "Counter32" && Counter32.String() == "Counter32"
    ensures FromOrdinal(12) == None && FromOrdinal(-1) == None
  {
  }
}
