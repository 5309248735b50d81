/** The intermediate representation both stages share (ast.ts): a closed set
    of record and union types. JavaScript `undefined` is `None`. */
module Ast {
  import opened Wrappers
  import opened Assoc

  /** `otherCount`: absent for a required singular value, `"maybe"` for an
      optional one, `"many"` for an array. */
  datatype Cardinality = Required | Maybe | Many

  /** A base type name with its cardinality. */
  datatype FieldDataType = FieldDataType(name: string, count: Cardinality)

  /** Relation metadata: the local field and the referenced field (single
      strings, brackets removed), the target model and the action words.
      The parser leaves a key it was not given as `None`. */
  datatype RelationAssertion = RelationAssertion(
    fields: Option<string>,
    references: Option<string>,
    model: string,
    name: Option<string>,
    onDelete: Option<string>,
    onUpdate: Option<string>)

  /** A field assertion is a primary-key marker, a verbatim default
      expression, or a relation. */
  datatype FieldAssertion =
    | PrimaryKey
    | Default(value: string)
    | Relation(relation: RelationAssertion)

  /** `ignore` marks a field that only carries relation metadata. */
  datatype Field = Field(dataType: FieldDataType, assertions: seq<FieldAssertion>, ignore: bool)

  datatype SortOrder = Asc | Desc

  /** One entry of an index: the field, an optional sort direction and an
      optional operator class. */
  datatype IndexField = IndexField(name: string, sort: Option<SortOrder>, ops: Option<string>)

  /** A block-level constraint. ast.ts types `kind` as `"index" | "unique"`;
      the parser casts whatever text stands between `@@` and `(`, so the
      model keeps it as text. */
  datatype Index = Index(kind: string, fields: seq<IndexField>, using: Option<string>)

  /** A model: its fields in declaration order and its block constraints. */
  datatype Model = Model(name: string, fields: Assoc<Field>, assertions: seq<Index>)

  /** A view has the shape of a model; the map it is stored in is its tag. */
  type View = Model

  datatype Enum = Enum(name: string, values: seq<string>)

  /** Passthrough `key = value` properties. A line without ` = ` assigns
      `undefined`, so a value is optional. */
  type Props = Assoc<Option<string>>

  function Prop(props: Props, key: string): Option<string> {
    var entry := Get(props, key);
    if entry.Some? then entry.value else None
  }

  datatype Generator = Generator(props: Props)

  /** A datasource: `provider` and `url` are properties like any other. */
  datatype DataSource = DataSource(props: Props) {
    function Provider(): Option<string> { Prop(props, "provider") }
    function Url(): Option<string> { Prop(props, "url") }
  }

  /** The root: five name-keyed maps. */
  datatype AllAst = AllAst(
    models: Assoc<Model>,
    views: Assoc<View>,
    generators: Assoc<Generator>,
    datasources: Assoc<DataSource>,
    enums: Assoc<Enum>)

  const EMPTY_AST := AllAst([], [], [], [], [])

  /** What every AST the parser produces satisfies: no name twice in a map, every
      model, view and enum stored under its own name, and no stored field
      marked `ignore`. */
  predicate WellFormed(ast: AllAst) {
    && UniqueKeys(ast.models) && UniqueKeys(ast.views) && UniqueKeys(ast.generators)
    && UniqueKeys(ast.datasources) && UniqueKeys(ast.enums)
    && (forall e :: e in ast.models ==> TableWellFormed(e))
    && (forall e :: e in ast.views ==> TableWellFormed(e))
    && (forall e :: e in ast.enums ==> e.1.name == e.0)
  }

  /** No stored field is marked `ignore`. */
  predicate NoIgnored(fields: Assoc<Field>) {
    forall e :: e in fields ==> !e.1.ignore
  }

  predicate TableWellFormed(entry: (string, Model)) {
    entry.1.name == entry.0 && UniqueKeys(entry.1.fields) && NoIgnored(entry.1.fields)
  }
}
