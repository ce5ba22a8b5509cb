/**
 * The result records of the shader layout extractor (shader-parser.hpp): the
 * kinds of interface block a `layout(...)` declaration can introduce, one
 * member variable of a block, and one extracted declaration.
 */
module LayoutModel {

  /** The source's `int32`: the values a 32-bit two's-complement integer holds. */
  newtype int32 = x: int | -0x8000_0000 <= x < 0x8000_0000

  const Int32Max: int := 0x7fff_ffff
  const Int32Min: int := -0x8000_0000

  /** The kind of a declaration. `Invalid` is the default of a fresh record. */
  datatype LayoutType =
    | UniformBuffer
    | ShaderStorageBuffer
    | AttribIn
    | AttribOut
    | Uniform
    | Invalid

  /** Whether the declaration is a block with a `{ ... }` member list. */
  predicate IsBlock(t: LayoutType) {
    t == UniformBuffer || t == ShaderStorageBuffer
  }

  /** Whether the declaration names a GLSL type before its own name. */
  predicate HasTypeQualifier(t: LayoutType) {
    t == AttribIn || t == AttribOut || t == Uniform
  }

  /** One member of a block: its type name, its name, whether it is an array
      and the declared element count (-1 for `[]`). */
  datatype Variable = Variable(typeName: string, name: string, isArray: bool, arraySize: int32)

  /** One extracted `layout(...)` declaration. */
  datatype Layout = Layout(
    kind: LayoutType,
    options: map<string, int32>,
    memoryQualifiers: seq<string>,
    name: string,
    typeQualifier: string,
    body: seq<Variable>)

  /** The display name of a declaration kind (the source's spelling of the
      fallback is kept as written). */
  function LayoutTypeName(t: LayoutType): (text: string)
    ensures |text| > 0
    ensures t == Invalid <==> text == "Invaild Type"
  {
    match t
    case UniformBuffer => "Uniform Buffer"
    case ShaderStorageBuffer => "Shader Storage Buffer"
    case AttribIn => "Attribute In"
    case AttribOut => "Attribute Out"
    case Uniform => "Uniform"
    case Invalid => "Invaild Type"
  }

  /** Distinct kinds have distinct display names. */
  lemma LayoutTypeNameInjective(a: LayoutType, b: LayoutType)
    ensures LayoutTypeName(a) == LayoutTypeName(b) ==> a == b
  {
  }
}
