/**
 * The value types the encoding rules tester exchanges with the RTI: opaque handles
 * for classes, instances, parameters, attributes and federates, data type names,
 * and Java's signed byte.
 */
module Hla {

  datatype InteractionClassHandle = InteractionClassHandle(id: nat)
  datatype ParameterHandle = ParameterHandle(id: nat)
  datatype ObjectClassHandle = ObjectClassHandle(id: nat)
  datatype ObjectInstanceHandle = ObjectInstanceHandle(id: nat)
  datatype AttributeHandle = AttributeHandle(id: nat)
  datatype FederateHandle = FederateHandle(id: nat)

  /** The name of an HLA data type as declared in the object model. */
  type TypeName = string

  /** Java's `byte`: a signed 8-bit value. */
  newtype JByte = x: int | -128 <= x < 128
}
