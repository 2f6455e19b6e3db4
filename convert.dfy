/**
 * The two conversion tables the schema builder uses: a field's label code to
 * its `.proto` keyword, and a field's type code to the type name a field is
 * declared with. Codes are the values of `FieldDescriptorProto.Label` and
 * `FieldDescriptorProto.Type`; `None` stands for the `undefined` the
 * switches fall through to.
 */
module Convert {
  import opened Results

  const TypeGroup := 10
  const TypeMessage := 11
  const TypeEnum := 14

  /** `convertFieldLabel`: `LABEL_OPTIONAL`, `LABEL_REQUIRED`, `LABEL_REPEATED`, nothing else. */
  function ConvertFieldLabel(code: int): (r: Option<string>)
    ensures r == Some("optional") <==> code == 1
    ensures r == Some("required") <==> code == 2
    ensures r == Some("repeated") <==> code == 3
    ensures r.None? <==> code !in {1, 2, 3}
  {
    match code
    case 1 => Some("optional")
    case 2 => Some("required")
    case 3 => Some("repeated")
    case _ => None
  }

  /** The label code a keyword stands for, read off the enum's declaration. */
  function LabelCode(keyword: string): Option<int>
  {
    if keyword == "optional" then Some(1)
    else if keyword == "required" then Some(2)
    else if keyword == "repeated" then Some(3)
    else None
  }

  /** The label table and its inverse agree in both directions. */
  lemma LabelTableInverse(code: int, keyword: string)
    ensures ConvertFieldLabel(code) == Some(keyword) <==> LabelCode(keyword) == Some(code)
  {
  }

  /** The codes `convertType` maps to a keyword of its own. */
  predicate IsScalarCode(code: int)
  {
    1 <= code <= 18 && code !in {TypeGroup, TypeMessage, TypeEnum}
  }

  /** The keyword of each scalar type code. */
  function ScalarKeyword(code: int): (k: string)
    requires IsScalarCode(code)
  {
    match code
    case 1 => "double"
    case 2 => "float"
    case 3 => "int64"
    case 4 => "uint64"
    case 5 => "int32"
    case 6 => "fixed64"
    case 7 => "fixed32"
    case 8 => "bool"
    case 9 => "string"
    case 12 => "bytes"
    case 13 => "uint32"
    case 15 => "sfixed32"
    case 16 => "sfixed64"
    case 17 => "sint32"
    case 18 => "sint64"
  }

  /**
   * `convertType`: a scalar's keyword, the field's own `type_name` for
   * messages and enums (whatever it holds, the empty string included), and
   * nothing for groups and for codes outside the enum.
   */
  function ConvertType(code: int, typeName: string): (r: Option<string>)
    ensures r.None? <==> !(1 <= code <= 18) || code == TypeGroup
    ensures code in {TypeMessage, TypeEnum} ==> r == Some(typeName)
    ensures IsScalarCode(code) ==> r == Some(ScalarKeyword(code))
  {
    if code == TypeMessage || code == TypeEnum then Some(typeName)
    else if IsScalarCode(code) then Some(ScalarKeyword(code))
    else None
  }

  /** The type code a scalar keyword stands for. */
  function ScalarCode(keyword: string): Option<int>
  {
    match keyword
    case "double" => Some(1)
    case "float" => Some(2)
    case "int64" => Some(3)
    case "uint64" => Some(4)
    case "int32" => Some(5)
    case "fixed64" => Some(6)
    case "fixed32" => Some(7)
    case "bool" => Some(8)
    case "string" => Some(9)
    case "bytes" => Some(12)
    case "uint32" => Some(13)
    case "sfixed32" => Some(15)
    case "sfixed64" => Some(16)
    case "sint32" => Some(17)
    case "sint64" => Some(18)
    case _ => None
  }

  /** Each scalar keyword is produced by exactly one code, and every keyword the table knows comes from it. */
  lemma ScalarTableInverse(code: int, keyword: string)
    ensures IsScalarCode(code) && ScalarKeyword(code) == keyword <==> ScalarCode(keyword) == Some(code)
  {
    if ScalarCode(keyword) == Some(code) {
      assert IsScalarCode(code);
    }
  }

  /** Distinct scalar codes give distinct keywords. */
  lemma ScalarKeywordsDistinct(c1: int, c2: int)
    requires IsScalarCode(c1) && IsScalarCode(c2) && c1 != c2
    ensures ScalarKeyword(c1) != ScalarKeyword(c2)
  {
    ScalarTableInverse(c1, ScalarKeyword(c1));
    ScalarTableInverse(c2, ScalarKeyword(c2));
  }
}
