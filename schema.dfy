/** The form schema the importer produces and the form table stores: fields
    with their options and validation entries, and the declarative rule graph
    (stored, never evaluated, by the backend). */
module Schema {
  import opened Wrappers

  /** The eight field types the importer accepts (its ALLOWED_FIELD_TYPES). */
  datatype FieldType = TextField | Email | Number | Textarea | Select | Radio | Checkbox | Date

  /** The key under which each type appears in ALLOWED_FIELD_TYPES. */
  function TypeName(t: FieldType): string
  {
    match t
    case TextField => "text"
    case Email => "email"
    case Number => "number"
    case Textarea => "textarea"
    case Select => "select"
    case Radio => "radio"
    case Checkbox => "checkbox"
    case Date => "date"
  }

  /** The keys of ALLOWED_FIELD_TYPES in their declaration order. */
  const AllowedTypeNames: seq<string> :=
    ["text", "email", "number", "textarea", "select", "radio", "checkbox", "date"]

  /** `ALLOWED_FIELD_TYPES.get(name)`: an exact lookup of the key. */
  function LookupType(name: string): (r: Option<FieldType>)
  {
    if name == "text" then Some(TextField)
    else if name == "email" then Some(Email)
    else if name == "number" then Some(Number)
    else if name == "textarea" then Some(Textarea)
    else if name == "select" then Some(Select)
    else if name == "radio" then Some(Radio)
    else if name == "checkbox" then Some(Checkbox)
    else if name == "date" then Some(Date)
    else None
  }

  /** The lookup succeeds exactly on the eight keys, and each type is found
      under its own key. */
  lemma LookupTypeSpec(name: string)
    ensures LookupType(name).Some? <==> name in AllowedTypeNames
    ensures LookupType(name).Some? ==> TypeName(LookupType(name).value) == name
  {
  }

  lemma LookupTypeName(t: FieldType)
    ensures LookupType(TypeName(t)) == Some(t)
  {
  }

  /** TYPES_REQUIRING_OPTIONS. */
  predicate RequiresOptions(t: FieldType) {
    t == Select || t == Radio
  }

  /** A selectable choice. Spreadsheet import always sets labelText == value (`label` is a Dafny keyword). */
  datatype FieldOption = FieldOption(labelText: string, value: string)

  /** A validation entry `{"type": ..., "value": ...}`; the importer emits
      the three kinds below. */
  datatype Validation = MinValue(bound: real) | MaxValue(bound: real) | Required

  datatype ConditionOperator = Equals | NotEquals | GreaterThan | LessThan | Contains

  /** A rule condition: a comparison against another field's value, or an
      and/or group of nested conditions. Values are kept as text. */
  datatype Condition =
    | Comparison(fieldId: string, operator: ConditionOperator, value: string)
    | Group(combinator: string, conditions: seq<Condition>)

  datatype ActionType = Show | Hide | Enable | Disable | SetRequired

  datatype RuleAction = RuleAction(targetFieldId: string, actionType: ActionType, value: Option<string>)

  datatype FormRule = FormRule(id: string, description: Option<string>, conditions: seq<Condition>, actions: seq<RuleAction>)

  datatype FormField = FormField(
    id: string,
    fieldType: FieldType,
    labelText: string,
    placeholder: Option<string>,
    options: seq<FieldOption>,
    validations: seq<Validation>,
    rules: seq<FormRule>)

  /** The payload that creates a form (FormSchemaCreate). */
  datatype FormSchemaCreate = FormSchemaCreate(
    name: string,
    description: Option<string>,
    fields: seq<FormField>,
    rules: Option<seq<FormRule>>)

  /** No two fields share an id. */
  predicate DistinctIds(fields: seq<FormField>) {
    forall i, j :: 0 <= i < j < |fields| ==> fields[i].id != fields[j].id
  }

  function IdsOf(fields: seq<FormField>): (ids: set<string>)
    ensures forall i :: 0 <= i < |fields| ==> fields[i].id in ids
    ensures forall x :: x in ids ==> exists i :: 0 <= i < |fields| && fields[i].id == x
  {
    if fields == [] then {} else IdsOf(fields[..|fields| - 1]) + {fields[|fields| - 1].id}
  }
}
