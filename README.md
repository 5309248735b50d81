# Prisma schema to Drizzle: a verified model

This project models the two-phase translator from a Prisma schema to a
Drizzle (pg-core) TypeScript module:

- **Parsing.** `prismaToAST` reads the schema text line by line. Each line
  is cut at `//` and trimmed. A small state machine then opens `model`,
  `view`, `enum`, `generator` and `datasource` blocks and closes them on
  `}`.
  - Model and view lines are handed to `handleModel`. It reads `@@index` /
    `@@unique` constraints and field lines. A field line carries at most
    one `@` attribute that is looked at.
  - Relation attributes are staged. On `}` they are appended to the field
    their `fields` argument names.
- **Rendering.** `ASTToDrizzle` turns the finished AST into the output text:
  - one client per datasource;
  - one `pgEnum` per enum;
  - one `pgTable` per model.

  Columns are built from:
  - a fixed scalar table, enum names and an `Unsupported(...)` passthrough;
  - a cardinality suffix;
  - suffixes for the field's assertions.

  A value outside a fixed table aborts.

## How the model is built

- A JavaScript `Record` is an insertion-ordered association list (`Assoc`).
  Assigning a present key replaces its value where it stands; a new key is
  appended.
- Every `throw` becomes an `Err` of the `Failure` datatype.
- The parser state is a value `ParserState(ast, block, staged)`.
  - The block carries the entity being filled.
  - Every change to it is written back into the AST under its name. This
    reproduces the effect of the source's shared mutable `current` object
    inside a block.
- Each loop of the source is a method proved equal to a specification
  function:
  - `prismaToAST`'s line loop and its flush loop;
  - `handleModel`'s relation-argument loop;
  - `indexField`'s modifier loop;
  - `withAssertions`;
  - `handleDataSources`.

  The properties are proved about those functions.
- The types of `ast.ts` are the datatypes of module `Ast`:
  - `Cardinality` has three cases: required (the absent `otherCount`),
    `Maybe` and `Many`.
  - `FieldAssertion` is `PrimaryKey`, `Default` or `Relation`.
  - `RelationAssertion` holds optional `fields`, `references`, `name`,
    `onDelete` and `onUpdate`, plus the target `model`.
  - `Index` has a kind, an ordered entry list and an optional `using`.
  - `View` has the shape of `Model`.
  - `Generator` and `DataSource` hold passthrough properties.
  - `AllAst` holds five name-keyed maps.
- Each regular expression of the source is a hand-written scanner:
  - the field split (`SplitFieldLine`);
  - the attribute token (`FirstAttr`);
  - `type: (.+?)$` (`UsingClause`);
  - `raw\("(.+?)"\)|(.+)` (`OpsValue`).
- `JSON.stringify` of the enum values escapes as section 7 of RFC 8259
  prescribes, with lower-case `\u00xx`. A decoder is given beside it, with a
  round-trip lemma.

Files:

| file | module | models |
|---|---|---|
| `wrappers.dfy` | `Wrappers` | `Option`, `Result`, the failure kinds |
| `assoc.dfy` | `Assoc` | JavaScript records |
| `js_string.dfy` | `JsString` | `trim`, `indexOf`, `slice`, `split`, `replace`, `startsWith`, `endsWith` |
| `ast.dfy` | `Ast` | `ast.ts` |
| `index_parser.dfy` | `IndexParser` | `indexField`, the `@@index`/`@@unique` branch of `handleModel` |
| `model_lines.dfy` | `ModelLines` | `fieldType` and the rest of `handleModel` |
| `block_parser.dfy` | `BlockParser` | `prismaToAST` |
| `json.dfy` | `Json` | `JSON.stringify` of a string array |
| `codegen.dfy` | `CodeGen` | `ast-to-drizzle.ts` |

## Model

| member | source | states |
|---|---|---|
| Assoc.Get | ast.ts:34-40 | reading a record key gives nothing exactly when the key is absent |
| Assoc.Put | prisma-to-ast.ts:53 | assigning a key keeps the key order; a new key goes last |
| Assoc.PutGet | prisma-to-ast.ts:53 | after an assignment the key reads the new value and every other key reads as before |
| Assoc.PutKeepsKeysUnique | ast.ts:34-40 | assignment never makes a key occur twice |
| Assoc.PutEntries | prisma-to-ast.ts:188 | an assignment adds no entry other than the assigned one |
| JsString.Trim | prisma-to-ast.ts:18 | the result has no leading or trailing white space |
| JsString.TrimIsInfix | prisma-to-ast.ts:18 | the trimmed text is the input with white space removed only at both ends |
| JsString.IndexOf | prisma-to-ast.ts:121 | the result is the first occurrence, or -1 when there is none |
| JsString.Split | prisma-to-ast.ts:17 | at least one piece; one piece exactly when the separator is absent; joining with the separator gives the input back |
| JsString.SplitCutsAtFirst | prisma-to-ast.ts:18 | the first piece is the text before the first separator, or the whole text when there is none; the remaining pieces split the text after that separator |
| JsString.SplitPiecesFree | prisma-to-ast.ts:17 | no piece contains the separator |
| JsString.SplitAtChar | prisma-to-ast.ts:17 | splitting at one separator character splits both sides independently |
| Json.EscapeChar | ast-to-drizzle.ts:40 | an escape is never empty and never starts with a double quote |
| Json.DecodeEscapeChar | ast-to-drizzle.ts:40 | every escape reads back as the character it stands for |
| Json.ReadEscaped | ast-to-drizzle.ts:40 | an escaped string followed by a closing quote reads back as the string |
| Json.StringifyRoundTrip | ast-to-drizzle.ts:40 | the rendered array reads back as the same values in the same order |
| IndexParser.OpsValue | prisma-to-ast.ts:204-205 | an empty value stores nothing; a non-empty value stores a non-empty text, either the whole value or the text after `raw("` up to the first `")` that follows at least one character |
| IndexParser.OpsUnwrapsRaw | prisma-to-ast.ts:203-206 | `ops: raw("x")` stores `x` |
| IndexParser.OpsKeepsPlainValue | prisma-to-ast.ts:203-206 | any other non-empty `ops` value is stored whole |
| IndexParser.ApplyModifier | prisma-to-ast.ts:197-209 | one modifier keeps the name; `sort: Asc` and `sort: Desc` set that direction and nothing else changes it; only an `ops` modifier changes `ops`, and a bare `ops` stores the text `undefined` |
| IndexParser.ParsedIndexField | prisma-to-ast.ts:192-196 | the entry name is the text before the first `(`, or the whole entry when there is none, and holds no `(`; a bare name has no sort and no `ops` |
| IndexParser.NameSurvivesModifiers | prisma-to-ast.ts:196-210 | no modifier changes the entry name |
| IndexParser.SortComesFromModifier | prisma-to-ast.ts:199-202 | a sort is set only by a `sort: Asc` or `sort: Desc` modifier |
| IndexParser.SortSetByModifier | prisma-to-ast.ts:199-201 | a `sort: Asc` or `sort: Desc` modifier sets that direction whatever came before |
| IndexParser.SortKeptByOthers | prisma-to-ast.ts:199-209 | any other modifier keeps the direction, so the last valid `sort` decides |
| IndexParser.UnknownModifierSkipped | prisma-to-ast.ts:208 | an unknown modifier is skipped and changes nothing |
| IndexParser.IndexFieldOf | prisma-to-ast.ts:192-211 | the modifier loop computes the parsed entry |
| IndexParser.ModifierStep | prisma-to-ast.ts:197-209 | one pass of the modifier loop computes that modifier's effect |
| IndexParser.ParsedIndexFields | prisma-to-ast.ts:133 | one parsed entry per list element, in order |
| IndexParser.UsingClause | prisma-to-ast.ts:127-130 | `using` is absent exactly when no `type: ` is followed by a character; otherwise it is the non-empty rest of the text after the first `type: ` |
| IndexParser.BlockIndex | prisma-to-ast.ts:120-137 | a constraint always has at least one entry, and a `using` is never empty; `BlockIndexParts` states its kind, `using` and entries for a line `@@kind(content)` |
| IndexParser.BlockIndexParts | prisma-to-ast.ts:120-136 | `@@kind(content)` gives that kind, the `type:` clause as `using`, and the bracketed entries or the single entry |
| IndexParser.BracketedListEntries | prisma-to-ast.ts:132 | the entries of `[a, b]` are the bracket contents split at `, ` |
| IndexParser.IndexFieldsOf | prisma-to-ast.ts:132-133 | the loop over the entries computes one parsed entry per element, in order |
| IndexParser.BlockIndexOf | prisma-to-ast.ts:120-137 | the constraint branch computes the parsed constraint |
| ModelLines.FieldType | prisma-to-ast.ts:213-220 | `Many` exactly for a `[]` suffix, `Maybe` exactly for a `?` suffix without `[]`; the type token is recovered from the result |
| ModelLines.SplitFieldLine | prisma-to-ast.ts:144 | the line is name, white space, type token and an optional rest, and nothing else |
| ModelLines.SplitTrimmedFieldLine | prisma-to-ast.ts:144 | a trimmed line fails to split exactly when it holds no white space; name and type hold no white space |
| ModelLines.NextAttrStart | prisma-to-ast.ts:149 | the result is the least index from which `@[\w.]` starts, or the end when none does |
| ModelLines.WordRunEnd | prisma-to-ast.ts:149 | the name run `[\w.]+` is taken as long as it goes |
| ModelLines.GroupEnd | prisma-to-ast.ts:149 | the optional group `(?:\([^@]+\))?` takes the longest `(`, non-`@` text, `)` match, or nothing when none matches |
| ModelLines.FirstAttr | prisma-to-ast.ts:149-150 | a token is found exactly when some index starts `@[\w.]`; it is the text at the leftmost such index, up to the end of the whole name run and the longest group |
| ModelLines.AttrTokens | prisma-to-ast.ts:149-150 | at most one token is examined |
| ModelLines.AttrTokensIff | prisma-to-ast.ts:149-150 | there is no token exactly when the scanned text holds no `@[\w.]` start; otherwise the one token is the leftmost match `FirstAttr` finds |
| ModelLines.UndefinedHasNoToken | prisma-to-ast.ts:150 | a line without a rest has no attribute |
| ModelLines.OnlyFirstToken | prisma-to-ast.ts:149-150 | of `@id @default(now())` only `@id` is examined |
| ModelLines.ArgPairs | prisma-to-ast.ts:164-168 | the filter keeps no more pairs than there are pieces, and never a `name` pair |
| ModelLines.ArgPairsKeepsKept | prisma-to-ast.ts:164-168 | every piece with a value and a key other than `name` is kept, and nothing is kept exactly when no such piece exists |
| ModelLines.ArgPairsFromPieces | prisma-to-ast.ts:164-168 | every kept pair comes from such a piece |
| ModelLines.ArgPairsAppend | prisma-to-ast.ts:164-168 | the filter keeps the pieces' order |
| ModelLines.AttributesOkIff | prisma-to-ast.ts:150-185 | the attributes are accepted exactly when every token is a known one |
| ModelLines.AttributesAppend | prisma-to-ast.ts:154 | attributes only append to the block constraints and to the staging list |
| ModelLines.RelationFromKeeps | prisma-to-ast.ts:171-178 | the relation name stays unset, and the target model stays the field's type unless a `model` argument overrides it |
| ModelLines.FieldLineDispatch | prisma-to-ast.ts:140-146 | a line that is not `@@` and splits is handled as that field declaration |
| ModelLines.SingleTokenField | prisma-to-ast.ts:145-189 | a field line is the one attribute applied to a fresh field, stored unless ignored |
| ModelLines.IdField | prisma-to-ast.ts:151-152 | `@id` stores the field with a primary-key assertion |
| ModelLines.UniqueField | prisma-to-ast.ts:153-154 | `@unique` stores the bare field and appends a one-entry unique constraint |
| ModelLines.DefaultField | prisma-to-ast.ts:155-157 | `@default(e)` stores the field with default `e` verbatim |
| ModelLines.DbField | prisma-to-ast.ts:158-160 | `@db.T` replaces the field's type by `T` |
| ModelLines.DbSplit | prisma-to-ast.ts:159 | `@db.T` splits at `.` into the prefix and `T` |
| ModelLines.RelationField | prisma-to-ast.ts:161-180 | a relation field is never stored; it stages the kept arguments assigned onto a fresh relation, without `name`, exactly when there is a kept argument |
| ModelLines.RelationTargetsBaseType | prisma-to-ast.ts:171-178 | without a `model` argument the staged relation targets the field's base type |
| ModelLines.UnknownAttributeField | prisma-to-ast.ts:181-184 | any other attribute aborts |
| ModelLines.RelationOf | prisma-to-ast.ts:171-178 | the argument loop computes the staged relation |
| ModelLines.AttributeStep | prisma-to-ast.ts:151-184 | one pass of the attribute loop computes the token's effect |
| ModelLines.AfterModelLine | prisma-to-ast.ts:115-190 | a model or view line keeps the block's name and only appends to its constraints and to the staging list; a constraint line leaves the fields and the staging list alone |
| ModelLines.HandleModel | prisma-to-ast.ts:115-190 | `handleModel` computes the new block and staging list |
| BlockParser.CutComment | prisma-to-ast.ts:18 | a line is cut at its first `//` (kept whole without one) and trimmed, so it holds no `//` |
| BlockParser.Piece | prisma-to-ast.ts:18-19 | one raw line contributes at most one line, non-empty, trimmed and free of `//` |
| BlockParser.NormalisedLines | prisma-to-ast.ts:16-19 | every kept line is non-empty, trimmed and free of `//` |
| BlockParser.NormalisedLinesAppend | prisma-to-ast.ts:16-19 | normalisation works line by line and keeps input order |
| BlockParser.FlushOkIff | prisma-to-ast.ts:34-43 | closing succeeds exactly when every staged relation names a field of the block |
| BlockParser.FlushKeys | prisma-to-ast.ts:36-38 | closing adds and removes no field |
| BlockParser.FlushField | prisma-to-ast.ts:36-38 | each field gets its staged relations appended, in staging order |
| BlockParser.FlushKeepsTable | prisma-to-ast.ts:36-38 | closing keeps the block well formed |
| BlockParser.ModelHeader | prisma-to-ast.ts:49-57 | `model X {` registers an empty model `X` at once, overwriting a previous `X`, and touches nothing else |
| BlockParser.ViewHeader | prisma-to-ast.ts:59-67 | the same for `view X {` |
| BlockParser.EnumHeader | prisma-to-ast.ts:69-76 | the same for `enum X {` |
| BlockParser.EnumBodyLine | prisma-to-ast.ts:97-99 | an enum line is appended to the open enum's values; every other enum and every other map stays as it was |
| BlockParser.GeneratorBodyLine | prisma-to-ast.ts:100-104 | a generator line sets exactly one property of the open generator; every other generator and every other map stays as it was |
| BlockParser.DatasourceBodyLine | prisma-to-ast.ts:105-109 | a datasource line sets exactly one property of the open datasource; every other datasource and every other map stays as it was |
| BlockParser.PropertyOf | prisma-to-ast.ts:101 | the key is the trimmed text before the first ` = `, or the whole trimmed line when there is none; there is a value exactly when the line holds ` = `, and it is the trimmed text after the first ` = ` up to the next one, if any |
| BlockParser.PropertyOfAssignment | prisma-to-ast.ts:101 | `k = v` is split into trimmed key and value |
| BlockParser.CloseModel | prisma-to-ast.ts:34-47 | `}` after a model appends to each field exactly the relations staged for it, in staging order, and changes nothing else in the field; the model keeps its name, constraints and field names; every other model and every other map stays as it was; the staging list is emptied and the block reset; it fails exactly when a staged name is missing |
| BlockParser.Close | prisma-to-ast.ts:34-47 | `}` always resets the block and empties the staging list; it can fail only when relations are staged |
| BlockParser.Open | prisma-to-ast.ts:49-88 | a header keeps the staging list, opens a block and registers its entity under its name |
| BlockParser.Body | prisma-to-ast.ts:90-110 | a line outside any block is ignored; only a model or view line can fail; an entity line writes the updated entity back under its name |
| BlockParser.Step | prisma-to-ast.ts:33-111 | a header never fails; a line fails only by closing a block with staged relations or as a model or view line; after a line the block is closed exactly when the line is `}` or a body line outside any block |
| BlockParser.StepKeepsValid | prisma-to-ast.ts:33-111 | every line keeps the parser state valid |
| BlockParser.CloseKeepsValid | prisma-to-ast.ts:34-47 | `}` keeps the parser state valid |
| BlockParser.OpenKeepsValid | prisma-to-ast.ts:49-88 | a header keeps the parser state valid |
| BlockParser.BodyKeepsValid | prisma-to-ast.ts:90-110 | a body line keeps the parser state valid |
| BlockParser.ModelBodyKeepsValid | prisma-to-ast.ts:91-93 | a model line keeps the parser state valid |
| BlockParser.ViewBodyKeepsValid | prisma-to-ast.ts:94-96 | a view line keeps the parser state valid |
| BlockParser.RegisterModel | prisma-to-ast.ts:49-57 | storing a well-formed model under its name and opening it keeps the state valid |
| BlockParser.RegisterView | prisma-to-ast.ts:59-67 | the same for a view |
| BlockParser.RegisterEnum | prisma-to-ast.ts:69-76 | the same for an enum |
| BlockParser.RegisterGenerator | prisma-to-ast.ts:78-83 | the same for a generator |
| BlockParser.RegisterDatasource | prisma-to-ast.ts:84-89 | the same for a datasource |
| BlockParser.ModelLineKeepsTable | prisma-to-ast.ts:92-95 | a model line keeps the block's name, unique field names and no ignored field |
| BlockParser.RunKeepsValid | prisma-to-ast.ts:33-111 | the whole loop keeps the parser state valid |
| BlockParser.ParseSchema | prisma-to-ast.ts:15-113 | a parsed AST is well formed: no key twice, entries under their own names, no ignored field stored |
| BlockParser.RunAppend | prisma-to-ast.ts:33 | lines are processed one after another; a failure stops the run |
| BlockParser.FlushStaged | prisma-to-ast.ts:35-44 | the loop over the staging list computes the flush, failing on the first missing field |
| BlockParser.CloseBlock | prisma-to-ast.ts:34-47 | the `}` branch computes the close step |
| BlockParser.BodyLine | prisma-to-ast.ts:90-110 | the dispatch on the open block computes the body step |
| BlockParser.PrismaToAst | prisma-to-ast.ts:15-113 | the loop with its in-place updates computes the parse |
| CodeGen.MapOnDelete | ast-to-drizzle.ts:141-158 | accepted exactly for no word or one of the five action words; no option only for no word |
| CodeGen.MapOnDeleteInjective | ast-to-drizzle.ts:141-158 | distinct action words give distinct target words |
| CodeGen.WithCount | ast-to-drizzle.ts:99-110 | `.array()` exactly for many, nothing exactly for maybe, `.notNull()` exactly for required |
| CodeGen.RelationOptions | ast-to-drizzle.ts:122-133 | both options or neither, with the same word, the one `onDelete` maps to |
| CodeGen.OnUpdateIgnored | ast-to-drizzle.ts:123-124 | the parsed `onUpdate` is never read |
| CodeGen.AssertionsText | ast-to-drizzle.ts:112-139 | the only failure is an unknown action word |
| CodeGen.AssertionsTextAppend | ast-to-drizzle.ts:114-137 | suffixes are concatenated in assertion order |
| CodeGen.AssertionsTextSingle | ast-to-drizzle.ts:116-133 | one assertion gives its own suffix |
| CodeGen.AssertionsPrefixFails | ast-to-drizzle.ts:114-137 | a failure at one assertion fails the whole field |
| CodeGen.RelationSuffix | ast-to-drizzle.ts:122-133 | the option-building statements compute the relation suffix |
| CodeGen.WithAssertions | ast-to-drizzle.ts:112-139 | the loop computes the assertion suffixes |
| CodeGen.GetDataType | ast-to-drizzle.ts:69-97 | accepted exactly for an enum, an `Unsupported` name or a scalar of the table; an enum wins |
| CodeGen.UnsupportedPassesThrough | ast-to-drizzle.ts:77-80 | `Unsupported(X)` passes `X` through verbatim |
| CodeGen.MapModelField | ast-to-drizzle.ts:53-67 | no column for a field typed by a model or view; otherwise one column starting `name: `, failing exactly when its type or an assertion does |
| CodeGen.ColumnFields | ast-to-drizzle.ts:46-48 | a field yields a column exactly when it is not typed by a model or view |
| CodeGen.ColumnFieldsAppend | ast-to-drizzle.ts:46-48 | the selection keeps the fields' order |
| CodeGen.Columns | ast-to-drizzle.ts:46-49 | on success there is one column per selected field, and the i-th column is the `mapModelField` rendering of the i-th selected field |
| CodeGen.ColumnsOkIff | ast-to-drizzle.ts:46-48 | the map fails exactly when some field's `mapModelField` fails |
| CodeGen.MapModel | ast-to-drizzle.ts:44-51 | a table declaration is produced exactly when every field of the model maps |
| CodeGen.Tables | ast-to-drizzle.ts:32-34 | one table declaration per model, in model order |
| CodeGen.TablesOkIff | ast-to-drizzle.ts:32-34 | the tables fail exactly when some model fails to map |
| CodeGen.EnumDecls | ast-to-drizzle.ts:26 | one enum declaration per enum, in order |
| CodeGen.MapEnum | ast-to-drizzle.ts:38-42 | the values in an enum declaration read back in declared order |
| CodeGen.MapProvider | ast-to-drizzle.ts:173-181 | accepted exactly for the quoted `"postgresql"` |
| CodeGen.AddToSet | ast-to-drizzle.ts:166 | adding keeps every element and adds the new one |
| CodeGen.Collect | ast-to-drizzle.ts:164-168 | the import block appears once however many datasources there are; one client per datasource |
| CodeGen.CollectOkIff | ast-to-drizzle.ts:164-168 | the loop succeeds exactly when every datasource is accepted |
| CodeGen.CollectClients | ast-to-drizzle.ts:164-168 | the clients are the datasources' clients, in order |
| CodeGen.CollectPrefixFails | ast-to-drizzle.ts:164-168 | the first failing datasource decides the failure |
| CodeGen.DataSourcesCases | ast-to-drizzle.ts:160-171 | no datasource gives an empty section; an unknown provider aborts; otherwise one import block and the clients |
| CodeGen.FixUrl | ast-to-drizzle.ts:190 | a url with neither `env(` nor `)` is kept as it is |
| CodeGen.EnvUrl | ast-to-drizzle.ts:190 | `env(X)` at the start becomes `process.env[X]!`; only that first placeholder is rewritten |
| CodeGen.MapProviderClient | ast-to-drizzle.ts:189-197 | a missing url fails first, whatever the provider; otherwise accepted exactly for `"postgresql"`, with the `pgDrizzle` wrapper |
| CodeGen.MapClient | ast-to-drizzle.ts:183-187 | a client is produced exactly for an accepted datasource; without a url the failure is the missing url, whatever the provider |
| CodeGen.HandleDataSources | ast-to-drizzle.ts:160-171 | the loop with its set and array computes the datasource section |
| CodeGen.MapModelFieldLookups | ast-to-drizzle.ts:52-76 | two ASTs with the same model, view and enum names give the same column |
| CodeGen.ColumnsLookups | ast-to-drizzle.ts:57-76 | two ASTs with the same model, view and enum names give the same columns |
| CodeGen.TablesLookups | ast-to-drizzle.ts:32-34 | two ASTs with the same model, view and enum names give the same tables |
| CodeGen.AstToDrizzle | ast-to-drizzle.ts:3-36 | a datasource failure is reported before any model failure; the output is produced exactly when every datasource is accepted and every model maps |
| CodeGen.GeneratorsNotRendered | ast-to-drizzle.ts:3-36 | generators never influence the output |
| CodeGen.OneDeclarationPerEntity | ast-to-drizzle.ts:3-36 | on success there is one table declaration per model, none per view, and one enum declaration per enum |
| CodeGen.UserTable | ast-to-drizzle.ts:44-110 | on a hand-built AST for `id Int @id`, `name String`, `age Int?`, there are three columns: integer not-null primary key, text not-null, integer without not-null |
| CodeGen.AuthorReference | ast-to-drizzle.ts:53-133 | on a hand-built AST, a flushed `onDelete: Cascade` relation gives a reference to `Author.id` with cascade on both options, and a field typed by a model gives no column |

## Left out

- `index.ts`: the command line, reading the schema file, printing the AST and writing `out.ts` are process and file I/O.
- The `console.error` and `console.warn` diagnostics. Only their outcome is modelled: an abort, or a skipped index modifier.
- Exception text and mechanics: `throw null`, thrown strings and the try/catch rethrow. A failure is a `Failure` value.
- The fixed import lines and the `unsupported` custom type are constant strings. The custom type's runtime check belongs to the generated program.
- Header lines inside an open block are not modelled as aliasing. The source re-tags and re-registers the same `current` object, so an entity can be aliased under two names. Here the header registers a fresh entity, and later lines update only the newest one.
- The `type` tag that the source stores among a generator's or datasource's properties is kept out of `Props`. Here a schema line `type = x` is an ordinary property. In the source it overwrites the tag, so `switch (current.type)` (prisma-to-ast.ts:90) matches no case and every later line of that block is dropped. For example, a later `url = ...` is never stored, and rendering then aborts for want of a url. The model stores those later lines.
- Regular-expression `.` is modelled as any character. The source's `.` excludes line terminators, and lines never contain `\n`, but `\r` and the Unicode separators can still occur.
- Relation arguments: only `fields`, `references`, `model`, `onDelete` and `onUpdate` are stored. Any other key the source would attach to the object is ignored. This includes `type`. In the source, an argument `type: x` (prisma-to-ast.ts:177) overwrites the assertion's tag, and `withAssertions` then renders by the new tag. `type: primaryKey` renders `.primaryKey()` and `type: default` renders ``.default(sql`undefined`)`` instead of the reference; any other tag reaches the `default` branch (ast-to-drizzle.ts:134-135) and aborts. The model always renders the reference.
- JavaScript object quirks are not modelled: integer-like keys enumerated first, prototype keys such as `constructor`. Keys are assumed to be plain identifiers in insertion order.
- The `default` branch of `withCount` has no counterpart: `otherCount` is only ever set by `fieldType`, so it is absent, `maybe` or `many`. The `default` branch of `withAssertions` is reachable in the source only through a relation argument `type: x`, described above; the model has no counterpart for it.
- JavaScript `undefined` is rendered as the text `undefined` in four places:
  - a relation without `fields` is staged under that name;
  - a relation without `references` renders `.undefined`;
  - a line without a rest is scanned as that text;
  - an `ops` index modifier without a value stores that text, as `exec(undefined)` (prisma-to-ast.ts:204) matches it.
- String positions count characters (code points), where `indexOf`, `slice` and `.length` in the source count UTF-16 code units. The two agree on text without characters outside the Basic Multilingual Plane.
- `JSON.stringify` is modelled for arrays of strings only. Characters are Unicode scalar values, so lone surrogates do not arise.
