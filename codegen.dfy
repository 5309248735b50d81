/** The renderer of ast-to-drizzle.ts: a deterministic function from a
    complete AST to the text of a Drizzle (pg-core) schema module, or a
    failure when a value falls outside one of its fixed tables. */
module CodeGen {
  import opened Wrappers
  import opened Assoc
  import opened JsString
  import opened Ast
  import opened Json

  // ------------------------------------------------------------ constants

  /** The fixed import lines that open the generated module. */
  const PRELUDE: string := "import * as d from \"drizzle-orm/pg-core\";\nimport { sql } from \"drizzle-orm\";\n"

  /** The `unsupported` custom column type and the enum banner, between the
      datasource section and the enum declarations. Its runtime check belongs
      to the generated program; here it is a constant. */
  const UNSUPPORTED_AND_ENUM_BANNER: string := "\n\nconst unsupported = d.customType({\n  dataType(config) {\n    if (\n      config == null ||\n      typeof config !== \"object\" ||\n      !(\"type\" in config) ||\n      typeof config.type !== \"string\"\n    ) {\n      throw new Error(\"Unsupported was used without config\");\n    }\n    return config.type;\n  },\n});\n\n// \U{250C}\U{2500}\U{2500}\U{2500}\U{2500}\U{2500}\U{2500}\U{2500}\U{2500}\U{2500}\U{2500}\U{2500}\U{2500}\U{2500}\U{2510}\n// \U{2502}    Enums    \U{2502}\n// \U{2514}\U{2500}\U{2500}\U{2500}\U{2500}\U{2500}\U{2500}\U{2500}\U{2500}\U{2500}\U{2500}\U{2500}\U{2500}\U{2500}\U{2518}\n\n"

  /** The banner between the enum and the table declarations. */
  const MODEL_BANNER: string := "\n\n// \U{250C}\U{2500}\U{2500}\U{2500}\U{2500}\U{2500}\U{2500}\U{2500}\U{2500}\U{2500}\U{2500}\U{2500}\U{2500}\U{2500}\U{2500}\U{2510}\n// \U{2502}    Models    \U{2502}\n// \U{2514}\U{2500}\U{2500}\U{2500}\U{2500}\U{2500}\U{2500}\U{2500}\U{2500}\U{2500}\U{2500}\U{2500}\U{2500}\U{2500}\U{2500}\U{2518}\n\n"

  /** The import block of the one provider the generator knows. */
  const PG_IMPORTS: string := "import postgres from \"postgres\";\nimport { drizzle as pgDrizzle } from \"drizzle-orm/postgres-js\";"

  /** The provider value the generator accepts: the quoted literal, as the
      parser stores it. */
  const POSTGRESQL: string := "\"postgresql\""

  /** A value interpolated into a template literal: `undefined` when absent. */
  function Interpolate(v: Option<string>): string {
    if v.Some? then v.value else "undefined"
  }

  // --------------------------------------------------------- action words

  /** The action words of a relation, in the source's spelling. */
  const ACTION_WORDS: seq<string> := ["Cascade", "SetNull", "NoAction", "Restrict", "SetDefault"]

  /** `mapOnDelete`: no word gives no option; each of the five action words
      gives its target word (`cascade`, `set null`, `no action`, `restrict`,
      `set default`); any other word aborts. */
  function MapOnDelete(w: Option<string>): (r: Result<Option<string>>)
    ensures r.Ok? <==> w.None? || w.value in ACTION_WORDS
    ensures r.Ok? ==> (r.value.None? <==> w.None?)
  {
    match w
    case None => Ok(None)
    case Some(x) =>
      if x == "Cascade" then Ok(Some("cascade"))
      else if x == "SetNull" then Ok(Some("set null"))
      else if x == "NoAction" then Ok(Some("no action"))
      else if x == "Restrict" then Ok(Some("restrict"))
      else if x == "SetDefault" then Ok(Some("set default"))
      else Err(UnsupportedActionWord)
  }

  /** Distinct action words give distinct target words. */
  lemma MapOnDeleteInjective(x: string, y: string)
    requires MapOnDelete(Some(x)).Ok? && MapOnDelete(Some(y)).Ok?
    requires MapOnDelete(Some(x)) == MapOnDelete(Some(y))
    ensures x == y
  {
  }

  // ----------------------------------------------------------- a column

  /** `withCount`: exactly one cardinality suffix per column. */
  function WithCount(dt: FieldDataType): (r: string)
    ensures r == ".array()" <==> dt.count == Many
    ensures r == "" <==> dt.count == Maybe
    ensures r == ".notNull()" <==> dt.count == Required
  {
    match dt.count
    case Many => ".array()"
    case Maybe => ""
    case Required => ".notNull()"
  }

  /** The options of a `.references(...)` call: present when either action
      is, each with a trailing comma. */
  function ReferenceOptions(onDelete: Option<string>, onUpdate: Option<string>): string {
    if onDelete.Some? || onUpdate.Some? then
      ", { "
      + (if onDelete.Some? then "onDelete: \"" + onDelete.value + "\", " else "")
      + (if onUpdate.Some? then "onUpdate: \"" + onUpdate.value + "\", " else "")
      + "}"
    else ""
  }

  /** The start of a `.references(...)` suffix, up to its options. */
  function ReferenceHead(r: RelationAssertion): string {
    ".references((): d.AnyPgColumn => " + r.model + "." + Interpolate(r.references)
  }

  /** The relation suffix. Both options are computed from `onDelete`, by
      the same total mapping, so one result serves for both. */
  function RelationText(r: RelationAssertion): Result<string> {
    var onDelete :- MapOnDelete(r.onDelete);
    var onUpdate := onDelete;
    Ok(ReferenceHead(r) + ReferenceOptions(onDelete, onUpdate) + ")")
  }

  /** The options the relation suffix carries for one target word. */
  function SameOptions(w: Option<string>): string {
    match w
    case None => ""
    case Some(x) => ", { onDelete: \"" + x + "\", onUpdate: \"" + x + "\", }"
  }

  /** One field assertion as a suffix. */
  function AssertionText(a: FieldAssertion): Result<string> {
    match a
    case PrimaryKey => Ok(".primaryKey()")
    case Default(v) => Ok(".default(sql`" + v + "`)")
    case Relation(r) => RelationText(r)
  }

  /** The suffixes of an assertion list, left to right; the first failure
      aborts, and the only failure is an unknown action word. */
  function AssertionsText(asserts: seq<FieldAssertion>): (r: Result<string>)
    ensures r.Err? ==> r.error == UnsupportedActionWord
    decreases |asserts|
  {
    if asserts == [] then Ok("")
    else
      var pre :- AssertionsText(asserts[..|asserts| - 1]);
      var last :- AssertionText(asserts[|asserts| - 1]);
      Ok(pre + last)
  }

  lemma SameOptionsOf(w: Option<string>)
    ensures ReferenceOptions(w, w) == SameOptions(w)
  {
    if w.Some? {
      var x := w.value;
      assert ReferenceOptions(w, w)
        == ", { " + ("onDelete: \"" + x + "\", ") + ("onUpdate: \"" + x + "\", ") + "}";
    }
  }

  /** The relation suffix always carries both options or neither, with the
      same target word: the one `onDelete` maps to. */
  lemma RelationOptions(r: RelationAssertion)
    ensures RelationText(r).Ok? <==> MapOnDelete(r.onDelete).Ok?
    ensures RelationText(r).Ok? ==>
      RelationText(r).value == ReferenceHead(r) + SameOptions(MapOnDelete(r.onDelete).value) + ")"
  {
    if MapOnDelete(r.onDelete).Ok? {
      SameOptionsOf(MapOnDelete(r.onDelete).value);
    }
  }

  /** The parsed `onUpdate` is never read: changing it changes nothing. */
  lemma OnUpdateIgnored(r: RelationAssertion, u: Option<string>)
    ensures RelationText(r.(onUpdate := u)) == RelationText(r)
  {
  }

  /** One more assertion: its suffix follows those before it. */
  lemma AssertionsTextSnoc(a: seq<FieldAssertion>, x: FieldAssertion)
    ensures AssertionsText(a + [x]).Ok? <==> AssertionsText(a).Ok? && AssertionText(x).Ok?
    ensures AssertionsText(a + [x]).Ok? ==>
      AssertionsText(a + [x]).value == AssertionsText(a).value + AssertionText(x).value
  {
    assert (a + [x])[..|a|] == a;
  }

  /** The suffixes of two lists are the suffixes of the first followed by
      those of the second. */
  lemma {:induction false} AssertionsTextAppend(a: seq<FieldAssertion>, b: seq<FieldAssertion>)
    ensures AssertionsText(a + b).Ok? <==> AssertionsText(a).Ok? && AssertionsText(b).Ok?
    ensures AssertionsText(a + b).Ok? ==>
      AssertionsText(a + b).value == AssertionsText(a).value + AssertionsText(b).value
    decreases |b|
  {
    if b == [] {
      assert a + b == a;
    } else {
      var b', x := b[..|b| - 1], b[|b| - 1];
      InitLast(b);
      AppendAssoc(a, b', [x]);
      AssertionsTextAppend(a, b');
      AssertionsTextSnoc(a + b', x);
      AssertionsTextSnoc(b', x);
      if AssertionsText(a + b).Ok? {
        AppendAssoc(AssertionsText(a).value, AssertionsText(b').value, AssertionText(x).value);
      }
    }
  }

  /** A single assertion contributes exactly its own suffix. */
  lemma AssertionsTextSingle(a: FieldAssertion)
    ensures AssertionsText([a]) == AssertionText(a)
  {
    assert [a][..0] == [];
    match AssertionText(a)
    case Err(_) =>
    case Ok(t) => assert "" + t == t;
  }

  /** Once a prefix of the list fails, the whole list fails. */
  lemma {:induction false} AssertionsPrefixFails(asserts: seq<FieldAssertion>, i: nat)
    requires i <= |asserts| && AssertionsText(asserts[..i]).Err?
    ensures AssertionsText(asserts).Err?
    decreases |asserts| - i
  {
    if i < |asserts| {
      var init := asserts[..|asserts| - 1];
      assert init[..i] == asserts[..i];
      AssertionsPrefixFails(init, i);
    } else {
      assert asserts[..i] == asserts;
    }
  }

  lemma AssertionsSnoc(asserts: seq<FieldAssertion>, i: nat, text: string, piece: string)
    requires i < |asserts|
    requires AssertionsText(asserts[..i]) == Ok(text) && AssertionText(asserts[i]) == Ok(piece)
    ensures AssertionsText(asserts[..i + 1]) == Ok(text + piece)
  {
    assert asserts[..i + 1][..i] == asserts[..i];
  }

  lemma RelationTextOf(rel: RelationAssertion, w: Option<string>)
    requires MapOnDelete(rel.onDelete) == Ok(w)
    ensures RelationText(rel) == Ok(ReferenceHead(rel) + ReferenceOptions(w, w) + ")")
  {
  }

  /** The relation case of `withAssertions`: both actions mapped, then the
      options assembled piece by piece. */
  method RelationSuffix(rel: RelationAssertion) returns (r: Result<string>)
    ensures r == RelationText(rel)
  {
    var onDelete := MapOnDelete(rel.onDelete);
    if onDelete.Err? {
      return Err(onDelete.error);
    }
    // the second mapping is of `onDelete` again, so it cannot fail
    var onUpdate := MapOnDelete(rel.onDelete).value;
    var options := "";
    if onDelete.value.Some? || onUpdate.Some? {
      options := options + ", { ";
      if onDelete.value.Some? {
        options := options + ("onDelete: \"" + onDelete.value.value + "\", ");
      }
      if onUpdate.Some? {
        options := options + ("onUpdate: \"" + onUpdate.value + "\", ");
      }
      options := options + "}";
    }
    assert options == ReferenceOptions(onDelete.value, onUpdate);
    RelationTextOf(rel, onDelete.value);
    return Ok(ReferenceHead(rel) + options + ")");
  }

  /** `withAssertions`: the suffixes accumulated in a loop. */
  method WithAssertions(asserts: seq<FieldAssertion>) returns (r: Result<string>)
    ensures r == AssertionsText(asserts)
  {
    var text := "";
    for i := 0 to |asserts|
      invariant AssertionsText(asserts[..i]) == Ok(text)
    {
      assert asserts[..i + 1][..i] == asserts[..i];
      var piece := "";
      match asserts[i] {
        case PrimaryKey =>
          piece := ".primaryKey()";
        case Default(v) =>
          piece := ".default(sql`" + v + "`)";
        case Relation(rel) =>
          var suffix := RelationSuffix(rel);
          if suffix.Err? {
            AssertionsPrefixFails(asserts, i + 1);
            return Err(suffix.error);
          }
          piece := suffix.value;
      }
      AssertionsSnoc(asserts, i, text, piece);
      text := text + piece;
    }
    assert asserts[..|asserts|] == asserts;
    return Ok(text);
  }

  /** A field whose base type names a model or a view yields no column. */
  predicate IsRelationField(f: Field, ast: AllAst) {
    HasKey(ast.models, f.dataType.name) || HasKey(ast.views, f.dataType.name)
  }

  /** The column types with a fixed constructor. */
  const SCALAR_TYPES: seq<string> := ["String", "DateTime", "Json", "Int", "Boolean", "SmallInt"]

  /** `getDataType`: an enum name first, then the `Unsupported(...)` escape
      hatch, then the fixed scalar table; any other base type aborts. */
  function GetDataType(name: string, f: Field, ast: AllAst): (r: Result<string>)
    ensures r.Ok? <==>
      HasKey(ast.enums, f.dataType.name) || StartsWith(f.dataType.name, "Unsupported")
      || f.dataType.name in SCALAR_TYPES
    ensures HasKey(ast.enums, f.dataType.name) ==> r == Ok(f.dataType.name + "(\"" + name + "\")")
  {
    var t := f.dataType.name;
    if HasKey(ast.enums, t) then Ok(t + "(\"" + name + "\")")
    else if StartsWith(t, "Unsupported") then
      Ok("unsupported(\"" + name + "\", { type: " + Slice(t, 12, -1) + " })")
    else if t == "String" then Ok("d.text(\"" + name + "\")")
    else if t == "DateTime" then Ok("d.timestamp(\"" + name + "\")")
    else if t == "Json" then Ok("d.json(\"" + name + "\")")
    else if t == "Int" then Ok("d.integer(\"" + name + "\")")
    else if t == "Boolean" then Ok("d.boolean(\"" + name + "\")")
    else if t == "SmallInt" then Ok("d.smallint(\"" + name + "\")")
    else Err(UnsupportedScalarType)
  }

  /** `Unsupported(X)` passes `X` through verbatim, unless an enum has that
      name. */
  lemma UnsupportedPassesThrough(name: string, f: Field, ast: AllAst, x: string)
    requires f.dataType.name == "Unsupported(" + x + ")"
    requires !HasKey(ast.enums, f.dataType.name)
    ensures GetDataType(name, f, ast) == Ok("unsupported(\"" + name + "\", { type: " + x + " })")
  {
    var t := f.dataType.name;
    assert t[..11] == "Unsupported";
    assert Slice(t, 12, -1) == t[12..|t| - 1] == x;
  }

  /** `mapModelField`: no column for a relation field, otherwise the
      constructor, the cardinality suffix and the assertion suffixes. */
  function MapModelField(name: string, f: Field, ast: AllAst): (r: Result<Option<string>>)
    ensures IsRelationField(f, ast) ==> r == Ok(None)
    ensures !IsRelationField(f, ast) ==> (r.Ok? ==> r.value.Some? && StartsWith(r.value.value, name + ": "))
    ensures !IsRelationField(f, ast) ==>
      (r.Ok? <==> GetDataType(name, f, ast).Ok? && AssertionsText(f.assertions).Ok?)
  {
    if IsRelationField(f, ast) then Ok(None)
    else
      var ctor :- GetDataType(name, f, ast);
      var suffix :- AssertionsText(f.assertions);
      var column := name + ": " + ctor + WithCount(f.dataType) + suffix;
      assert column[..|name + ": "|] == name + ": ";
      Ok(Some(column))
  }

  /** The fields that yield a column (`.filter(Boolean)` after the map):
      exactly the fields not typed by a model or view, in field order. */
  function ColumnFields(fields: Assoc<Field>, ast: AllAst): (r: Assoc<Field>)
    ensures |r| <= |fields|
    ensures forall e :: e in r ==> e in fields && !IsRelationField(e.1, ast)
    ensures forall e :: e in fields && !IsRelationField(e.1, ast) ==> e in r
  {
    if fields == [] then []
    else (if IsRelationField(fields[0].1, ast) then [] else [fields[0]]) + ColumnFields(fields[1..], ast)
  }

  /** The selection keeps the fields' order: it distributes over
      concatenation. */
  lemma {:induction false} ColumnFieldsAppend(a: Assoc<Field>, b: Assoc<Field>, ast: AllAst)
    ensures ColumnFields(a + b, ast) == ColumnFields(a, ast) + ColumnFields(b, ast)
  {
    if a == [] {
      assert a + b == b;
    } else {
      assert (a + b)[1..] == a[1..] + b;
      assert (a + b)[0] == a[0];
      ColumnFieldsAppend(a[1..], b, ast);
      var h: Assoc<Field> := if IsRelationField(a[0].1, ast) then [] else [a[0]];
      AppendAssoc(h, ColumnFields(a[1..], ast), ColumnFields(b, ast));
    }
  }

  /** The columns of a model: every field mapped in order, relation fields
      dropped. On success the i-th column is the rendering of the i-th field
      that yields one. */
  function Columns(fields: Assoc<Field>, ast: AllAst): (r: Result<seq<string>>)
    ensures r.Ok? ==> |r.value| == |ColumnFields(fields, ast)|
    ensures r.Ok? ==> forall i :: 0 <= i < |r.value| ==>
      var e := ColumnFields(fields, ast)[i];
      MapModelField(e.0, e.1, ast) == Ok(Some(r.value[i]))
  {
    if fields == [] then Ok([])
    else
      var c :- MapModelField(fields[0].0, fields[0].1, ast);
      var rest :- Columns(fields[1..], ast);
      assert ColumnFields(fields, ast) == (if c.Some? then [fields[0]] else []) + ColumnFields(fields[1..], ast);
      Ok((if c.Some? then [c.value] else []) + rest)
  }

  /** The map fails exactly when some field's `mapModelField` does. */
  lemma {:induction false} ColumnsOkIff(fields: Assoc<Field>, ast: AllAst)
    ensures Columns(fields, ast).Ok? <==> forall i :: 0 <= i < |fields| ==> MapModelField(fields[i].0, fields[i].1, ast).Ok?
  {
    if fields != [] {
      ColumnsOkIff(fields[1..], ast);
      assert forall i :: 1 <= i < |fields| ==> fields[i] == fields[1..][i - 1];
    }
  }

  /** `mapModel`: one `pgTable` declaration, failing exactly when one of
      the model's fields fails to map. */
  function MapModel(m: Model, ast: AllAst): (r: Result<string>)
    ensures r.Ok? <==> forall i :: 0 <= i < |m.fields| ==> MapModelField(m.fields[i].0, m.fields[i].1, ast).Ok?
  {
    ColumnsOkIff(m.fields, ast);
    var cols :- Columns(m.fields, ast);
    Ok(TableDecl(m.name, cols))
  }

  /** The text of a `pgTable` declaration with the given columns. */
  function TableDecl(name: string, cols: seq<string>): string {
    "export const " + name + " = d.pgTable(\"" + name + "\", {\n  " + Join(cols, ",\n  ") + "\n});"
  }

  /** The table declarations: one per model, in model order. */
  function Tables(models: seq<Model>, ast: AllAst): (r: Result<seq<string>>)
    ensures r.Ok? ==> |r.value| == |models|
    ensures r.Ok? ==> forall i :: 0 <= i < |models| ==> MapModel(models[i], ast) == Ok(r.value[i])
  {
    if models == [] then Ok([])
    else
      var t :- MapModel(models[0], ast);
      var rest :- Tables(models[1..], ast);
      Ok([t] + rest)
  }

  /** The tables fail exactly when some model fails to map. */
  lemma {:induction false} TablesOkIff(models: seq<Model>, ast: AllAst)
    ensures Tables(models, ast).Ok? <==> forall i :: 0 <= i < |models| ==> MapModel(models[i], ast).Ok?
  {
    if models != [] {
      TablesOkIff(models[1..], ast);
      assert forall i :: 1 <= i < |models| ==> models[i] == models[1..][i - 1];
    }
  }

  // ------------------------------------------------------------- enums

  /** The text of an enum declaration before its value array. */
  function EnumHead(name: string): string {
    "export const " + name + " = d.pgEnum(\"" + name + "\",\n  "
  }

  /** `mapEnum`: one `pgEnum` declaration with the values as a JSON array.
      The array in the declaration reads back as the declared values, in
      declared order. */
  function MapEnum(e: Enum): (r: string)
    ensures |EnumHead(e.name)| + 3 <= |r|
    ensures ParseStrings(r[|EnumHead(e.name)|..|r| - 3]) == Some(e.values)
  {
    var h := EnumHead(e.name);
    var a := StringifyStrings(e.values);
    var d := h + a + "\n);";
    assert d[|h|..|d| - 3] == a;
    StringifyRoundTrip(e.values);
    d
  }

  function EnumDecls(es: seq<Enum>): (r: seq<string>)
    ensures |r| == |es|
    ensures forall i :: 0 <= i < |es| ==> r[i] == MapEnum(es[i])
  {
    if es == [] then [] else [MapEnum(es[0])] + EnumDecls(es[1..])
  }

  // ---------------------------------------------------------- datasources

  /** `mapProvider`: only the quoted literal `"postgresql"` is known. */
  function MapProvider(provider: Option<string>): (r: Result<string>)
    ensures r.Ok? <==> provider == Some(POSTGRESQL)
  {
    if provider == Some(POSTGRESQL) then Ok(PG_IMPORTS) else Err(UnsupportedProvider)
  }

  /** The url rewrite: the first `env(` becomes `process.env[`, then the
      first `)` becomes `]!`. */
  function FixUrl(url: string): (r: string)
    ensures !Contains(url, "env(") && !Contains(url, ")") ==> r == url
  {
    ReplaceFirst(ReplaceFirst(url, "env(", "process.env["), ")", "]!")
  }

  /** `mapProviderClient`: the client expression and the drizzle wrapper;
      a missing url cannot be rewritten, whatever the provider. */
  function MapProviderClient(provider: Option<string>, url: Option<string>): (r: Result<(string, string)>)
    ensures url.None? ==> r == Err(MissingUrl)
    ensures r.Ok? <==> url.Some? && provider == Some(POSTGRESQL)
    ensures r.Ok? ==> r.value.1 == "pgDrizzle"
  {
    if url.None? then Err(MissingUrl)
    else
      var fixed := FixUrl(url.value);
      if provider == Some(POSTGRESQL) then Ok(("postgres(" + fixed + ")", "pgDrizzle"))
      else Err(UnsupportedProvider)
  }

  /** `mapClient`: a client constant and a drizzle instance named after
      the datasource, for an accepted datasource only. */
  function MapClient(name: string, ds: DataSource): (r: Result<string>)
    ensures r.Ok? <==> Accepted(ds)
    ensures ds.Url().None? ==> r == Err(MissingUrl)
  {
    var (client, drizzle) :- MapProviderClient(ds.Provider(), ds.Url());
    Ok("export const " + name + "Client = " + client + ";\nexport const " + name + " = " + drizzle + "(" + name + "Client);")
  }

  /** Adding to an insertion-ordered set. */
  function AddToSet(s: seq<string>, x: string): (r: seq<string>)
    ensures x in r && forall y :: y in s ==> y in r
  {
    if x in s then s else s + [x]
  }

  /** The loop of `handleDataSources` over the datasources: the import set
      and the client declarations, the first failure aborting. The import
      set holds the one import block once, whatever the number of
      datasources; there is one client declaration per datasource. */
  function Collect(sources: Assoc<DataSource>): (r: Result<(seq<string>, seq<string>)>)
    ensures r.Ok? ==> r.value.0 == (if sources == [] then [] else [PG_IMPORTS])
    ensures r.Ok? ==> |r.value.1| == |sources|
    decreases |sources|
  {
    if sources == [] then Ok(([], []))
    else
      var acc :- Collect(sources[..|sources| - 1]);
      var step :- SourceStep(sources[|sources| - 1]);
      Ok((AddToSet(acc.0, step.0), acc.1 + [step.1]))
  }

  /** One iteration of the loop: the provider's import block, then the
      client declaration. */
  function SourceStep(source: (string, DataSource)): (r: Result<(string, string)>)
    ensures r.Ok? ==> r.value.0 == PG_IMPORTS
  {
    var imp :- MapProvider(source.1.Provider());
    var client :- MapClient(source.0, source.1);
    Ok((imp, client))
  }

  /** An iteration succeeds exactly for an accepted datasource, and yields
      its client declaration. */
  lemma SourceStepOk(source: (string, DataSource))
    ensures SourceStep(source).Ok? <==> Accepted(source.1)
    ensures SourceStep(source).Ok? ==> MapClient(source.0, source.1) == Ok(SourceStep(source).value.1)
  {
  }

  /** One more datasource: the loop goes on exactly when the iteration
      succeeds, adding its import block and its client declaration. */
  lemma CollectSnoc(init: Assoc<DataSource>, x: (string, DataSource))
    ensures Collect(init + [x]).Ok? <==> Collect(init).Ok? && SourceStep(x).Ok?
    ensures Collect(init + [x]).Ok? ==>
      Collect(init + [x]).value.1 == Collect(init).value.1 + [SourceStep(x).value.1]
  {
    assert (init + [x])[..|init|] == init;
  }

  /** `handleDataSources`: empty without datasources, otherwise the import
      set, a blank line and the client declarations. */
  function DataSourcesText(sources: Assoc<DataSource>): Result<string> {
    if sources == [] then Ok("")
    else
      var (imports, clients) :- Collect(sources);
      Ok(Join(imports, "\n") + "\n\n" + Join(clients, "\n\n"))
  }

  /** A datasource is accepted when its provider is `"postgresql"` and it
      has a url. */
  predicate Accepted(ds: DataSource) {
    ds.Provider() == Some(POSTGRESQL) && ds.Url().Some?
  }

  /** The loop succeeds exactly when every datasource is accepted. */
  lemma {:induction false} CollectOkIff(sources: Assoc<DataSource>)
    ensures Collect(sources).Ok? <==> forall i :: 0 <= i < |sources| ==> Accepted(sources[i].1)
    decreases |sources|
  {
    if sources != [] {
      var init, x := sources[..|sources| - 1], sources[|sources| - 1];
      InitLast(sources);
      CollectOkIff(init);
      CollectOkIffSnoc(init, x);
    }
  }

  lemma CollectOkIffSnoc(init: Assoc<DataSource>, x: (string, DataSource))
    requires Collect(init).Ok? <==> forall i :: 0 <= i < |init| ==> Accepted(init[i].1)
    ensures Collect(init + [x]).Ok? <==> forall i :: 0 <= i < |init + [x]| ==> Accepted((init + [x])[i].1)
  {
    CollectSnoc(init, x);
    SourceStepOk(x);
    assert forall i :: 0 <= i < |init| ==> (init + [x])[i] == init[i];
    assert (init + [x])[|init|] == x;
  }

  /** On success the client declarations are those of the datasources, in
      datasource order. */
  lemma {:induction false} CollectClients(sources: Assoc<DataSource>)
    requires Collect(sources).Ok?
    ensures forall i :: 0 <= i < |sources| ==>
      MapClient(sources[i].0, sources[i].1) == Ok(Collect(sources).value.1[i])
    decreases |sources|
  {
    if sources != [] {
      var init, x := sources[..|sources| - 1], sources[|sources| - 1];
      InitLast(sources);
      CollectSnoc(init, x);
      CollectClients(init);
      CollectClientsSnoc(init, x);
    }
  }

  lemma CollectClientsSnoc(init: Assoc<DataSource>, x: (string, DataSource))
    requires Collect(init + [x]).Ok?
    requires Collect(init).Ok? && forall i :: 0 <= i < |init| ==>
      MapClient(init[i].0, init[i].1) == Ok(Collect(init).value.1[i])
    ensures forall i :: 0 <= i < |init + [x]| ==>
      MapClient((init + [x])[i].0, (init + [x])[i].1) == Ok(Collect(init + [x]).value.1[i])
  {
    CollectSnoc(init, x);
    SourceStepOk(x);
    var cs := Collect(init).value.1;
    assert Collect(init + [x]).value.1 == cs + [SourceStep(x).value.1];
    forall i | 0 <= i < |init + [x]|
      ensures MapClient((init + [x])[i].0, (init + [x])[i].1) == Ok(Collect(init + [x]).value.1[i])
    {
      if i < |init| {
        assert (init + [x])[i] == init[i];
        assert (cs + [SourceStep(x).value.1])[i] == cs[i];
      } else {
        assert (init + [x])[i] == x;
      }
    }
  }

  /** Once a prefix of the datasources fails, the whole loop fails with the
      same failure. */
  lemma {:induction false} CollectPrefixFails(sources: Assoc<DataSource>, i: nat)
    requires i <= |sources| && Collect(sources[..i]).Err?
    ensures Collect(sources) == Collect(sources[..i])
    decreases |sources| - i
  {
    if i < |sources| {
      var init := sources[..|sources| - 1];
      assert init[..i] == sources[..i];
      CollectPrefixFails(init, i);
    } else {
      assert sources[..i] == sources;
    }
  }

  /** Without datasources the section is empty; with any, a provider other
      than `"postgresql"` aborts. */
  lemma DataSourcesCases(sources: Assoc<DataSource>)
    ensures sources == [] ==> DataSourcesText(sources) == Ok("")
    ensures (exists i :: 0 <= i < |sources| && sources[i].1.Provider() != Some(POSTGRESQL))
      ==> DataSourcesText(sources).Err?
    ensures DataSourcesText(sources).Ok? && sources != [] ==>
      DataSourcesText(sources).value == PG_IMPORTS + "\n\n" + Join(Collect(sources).value.1, "\n\n")
  {
    CollectOkIff(sources);
  }

  /** A url that starts with `env(X)` gets `process.env[X]!` in its place;
      only that first placeholder is rewritten, whatever follows it. */
  lemma EnvUrl(x: string, y: string)
    requires !Contains(x, ")")
    ensures FixUrl("env(" + x + ")" + y) == "process.env[" + x + "]!" + y
  {
    var u := "env(" + x + ")" + y;
    assert OccursAt(u, "env(", 0) by { assert u[..4] == "env("; }
    IndexOfIsLeast(u, "env(", 0);
    var v := "process.env[" + x + ")" + y;
    assert ReplaceFirst(u, "env(", "process.env[") == v by {
      assert u[4..] == x + ")" + y;
    }
    var k := 12 + |x|;
    assert OccursAt(v, ")", k) by { assert v[k..k + 1] == ")"; }
    forall j | 0 <= j < k ensures !OccursAt(v, ")", j) {
      OccursAtChar(v, ')', j);
      if j >= 12 {
        assert v[j] == x[j - 12];
        OccursAtChar(x, ')', j - 12);
        if v[j] == ')' {
          IndexOfIsLeast(x, ")", IndexOf(x, ")"));
        }
      } else {
        assert v[j] == "process.env["[j];
      }
    }
    IndexOfIsLeast(v, ")", k);
    assert v[..k] == "process.env[" + x;
    assert v[k + 1..] == y;
  }

  /** `handleDataSources` as the source writes it: a loop adding to a Set
      and pushing to an array. */
  method HandleDataSources(sources: Assoc<DataSource>) returns (r: Result<string>)
    ensures r == DataSourcesText(sources)
  {
    if |sources| == 0 {
      return Ok("");
    }
    var imports: seq<string> := [];
    var clients: seq<string> := [];
    for i := 0 to |sources|
      invariant Collect(sources[..i]) == Ok((imports, clients))
    {
      assert sources[..i + 1][..i] == sources[..i];
      var (name, ds) := sources[i];
      var imp := MapProvider(ds.Provider());
      if imp.Err? {
        CollectPrefixFails(sources, i + 1);
        return Err(imp.error);
      }
      if imp.value !in imports {
        imports := imports + [imp.value];
      }
      var client := MapClient(name, ds);
      if client.Err? {
        CollectPrefixFails(sources, i + 1);
        return Err(client.error);
      }
      clients := clients + [client.value];
    }
    assert sources[..|sources|] == sources;
    return Ok(Join(imports, "\n") + "\n\n" + Join(clients, "\n\n"));
  }

  // ------------------------------------------------------------ the module

  /** `ASTToDrizzle`: the prelude, the datasource section, the enum
      declarations, then one table per model. Views and generators produce
      no declaration. A datasource failure is reported before any model
      failure; the output is produced exactly when every datasource is
      accepted and every model maps. */
  function AstToDrizzle(ast: AllAst): (r: Result<string>)
    ensures DataSourcesText(ast.datasources).Err? ==> r == Err(DataSourcesText(ast.datasources).error)
    ensures r.Ok? <==>
      && (forall i :: 0 <= i < |ast.datasources| ==> Accepted(ast.datasources[i].1))
      && (forall i :: 0 <= i < |ast.models| ==> MapModel(ast.models[i].1, ast).Ok?)
  {
    CollectOkIff(ast.datasources);
    TablesOkIff(Values(ast.models), ast);
    var ds :- DataSourcesText(ast.datasources);
    var tables :- Tables(Values(ast.models), ast);
    Ok(PRELUDE + ds + UNSUPPORTED_AND_ENUM_BANNER + Join(EnumDecls(Values(ast.enums)), "\n\n")
       + MODEL_BANNER + Join(tables, "\n\n") + "\n")
  }

  /** Two ASTs that declare the same model, view and enum names. */
  predicate SameNames(ast: AllAst, ast': AllAst) {
    && Keys(ast.models) == Keys(ast'.models)
    && Keys(ast.views) == Keys(ast'.views)
    && Keys(ast.enums) == Keys(ast'.enums)
  }

  /** The columns do not depend on the generators, the datasources or the
      entities' contents: only the model and view names (for relation
      fields) and the enum names (for enum columns) are looked up. */
  lemma {:induction false} ColumnsLookups(fields: Assoc<Field>, ast: AllAst, ast': AllAst)
    requires SameNames(ast, ast')
    ensures Columns(fields, ast) == Columns(fields, ast')
  {
    if fields != [] {
      MapModelFieldLookups(fields[0].0, fields[0].1, ast, ast');
      ColumnsLookups(fields[1..], ast, ast');
    }
  }

  lemma MapModelFieldLookups(name: string, f: Field, ast: AllAst, ast': AllAst)
    requires SameNames(ast, ast')
    ensures MapModelField(name, f, ast) == MapModelField(name, f, ast')
  {
    assert IsRelationField(f, ast) == IsRelationField(f, ast');
    assert GetDataType(name, f, ast) == GetDataType(name, f, ast');
  }

  lemma {:induction false} TablesLookups(models: seq<Model>, ast: AllAst, ast': AllAst)
    requires SameNames(ast, ast')
    ensures Tables(models, ast) == Tables(models, ast')
  {
    if models != [] {
      ColumnsLookups(models[0].fields, ast, ast');
      TablesLookups(models[1..], ast, ast');
    }
  }

  /** Generators are parsed but never rendered. */
  lemma GeneratorsNotRendered(ast: AllAst, g: Assoc<Generator>)
    ensures AstToDrizzle(ast.(generators := g)) == AstToDrizzle(ast)
  {
    TablesLookups(Values(ast.models), ast, ast.(generators := g));
  }

  /** On success there is exactly one table declaration per model (and none
      for a view), and one enum declaration per enum. */
  lemma OneDeclarationPerEntity(ast: AllAst)
    requires AstToDrizzle(ast).Ok?
    ensures var tables := Tables(Values(ast.models), ast).value;
      && |tables| == |ast.models| && |EnumDecls(Values(ast.enums))| == |ast.enums|
      && AstToDrizzle(ast).value
         == PRELUDE + DataSourcesText(ast.datasources).value + UNSUPPORTED_AND_ENUM_BANNER
            + Join(EnumDecls(Values(ast.enums)), "\n\n") + MODEL_BANNER + Join(tables, "\n\n") + "\n"
  {
    assert DataSourcesText(ast.datasources).Ok? && Tables(Values(ast.models), ast).Ok?;
    assert |Values(ast.models)| == |ast.models| && |Values(ast.enums)| == |ast.enums|;
  }

  // ------------------------------------------------------------ scenarios

  /** A hand-built AST entry: the model that the schema text `model User
      { id Int @id  name String  age Int? }` is meant to parse into. The
      scenario below starts from this value, not from the text. */
  function UserModel(): Model {
    Model("User", [
      ("id", Field(FieldDataType("Int", Required), [PrimaryKey], false)),
      ("name", Field(FieldDataType("String", Required), [], false)),
      ("age", Field(FieldDataType("Int", Maybe), [], false))], [])
  }

  /** Three columns: `id` an integer primary key, not null; `name` text,
      not null; `age` an integer without the not-null modifier. */
  lemma UserTable()
    ensures var ast := EMPTY_AST.(models := [("User", UserModel())]);
      var fs := UserModel().fields;
      && Columns(fs, ast).Ok? && |Columns(fs, ast).value| == 3
      && GetDataType("id", fs[0].1, ast) == Ok("d.integer(\"id\")")
      && WithCount(fs[0].1.dataType) == ".notNull()"
      && AssertionsText(fs[0].1.assertions) == Ok(".primaryKey()")
      && GetDataType("name", fs[1].1, ast) == Ok("d.text(\"name\")")
      && WithCount(fs[1].1.dataType) == ".notNull()"
      && AssertionsText(fs[1].1.assertions) == Ok("")
      && GetDataType("age", fs[2].1, ast) == Ok("d.integer(\"age\")")
      && WithCount(fs[2].1.dataType) == ""
      && AssertionsText(fs[2].1.assertions) == Ok("")
  {
    var ast := EMPTY_AST.(models := [("User", UserModel())]);
    var fs := UserModel().fields;
    assert Keys(ast.models) == ["User"];
    UserConstructors(ast);
    AssertionsTextSingle(PrimaryKey);
    UserColumns(ast);
  }

  lemma UserConstructors(ast: AllAst)
    requires ast == EMPTY_AST.(models := [("User", UserModel())])
    ensures var fs := UserModel().fields;
      && GetDataType("id", fs[0].1, ast) == Ok("d.integer(\"id\")")
      && GetDataType("name", fs[1].1, ast) == Ok("d.text(\"name\")")
      && GetDataType("age", fs[2].1, ast) == Ok("d.integer(\"age\")")
  {
    assert !StartsWith("Int", "Unsupported") && !StartsWith("String", "Unsupported");
    assert "d.integer(\"" + "id" + "\")" == "d.integer(\"id\")";
    assert "d.text(\"" + "name" + "\")" == "d.text(\"name\")";
    assert "d.integer(\"" + "age" + "\")" == "d.integer(\"age\")";
  }

  lemma UserColumns(ast: AllAst)
    requires ast == EMPTY_AST.(models := [("User", UserModel())])
    requires forall i :: 0 <= i < 3 ==> GetDataType(UserModel().fields[i].0, UserModel().fields[i].1, ast).Ok?
    requires AssertionsText([PrimaryKey]).Ok?
    ensures Columns(UserModel().fields, ast).Ok? && |Columns(UserModel().fields, ast).value| == 3
  {
    var fs := UserModel().fields;
    assert Keys(ast.models) == ["User"];
    forall i | 0 <= i < 3 ensures !IsRelationField(fs[i].1, ast) && AssertionsText(fs[i].1.assertions).Ok? {
      assert fs[i].1.dataType.name != "User";
    }
    assert ColumnFields(fs[3..], ast) == [];
    assert |ColumnFields(fs, ast)| == 3;
  }

  /** `model Author { id Int @id  posts Post[] }` and `model Post {
      authorId Int  author Author @relation(fields: [authorId], references:
      [id], onDelete: Cascade) }`, built by hand in the form the parser is
      meant to store them: the relation field itself is never stored, its
      relation is flushed onto `authorId`. The scenario below starts from
      these values, not from the text. */
  function AuthorModel(): Model {
    Model("Author", [
      ("id", Field(FieldDataType("Int", Required), [PrimaryKey], false)),
      ("posts", Field(FieldDataType("Post", Many), [], false))], [])
  }

  function AuthorRelation(): RelationAssertion {
    RelationAssertion(Some("authorId"), Some("id"), "Author", None, Some("Cascade"), None)
  }

  function PostModel(): Model {
    Model("Post", [
      ("authorId", Field(FieldDataType("Int", Required), [Relation(AuthorRelation())], false))], [])
  }

  /** `authorId` carries a reference to `Author.id` with the cascade action
      on both options; the `posts` field, typed by a model, has no column. */
  lemma AuthorReference()
    ensures var ast := EMPTY_AST.(models := [("Author", AuthorModel()), ("Post", PostModel())]);
      && AssertionsText(PostModel().fields[0].1.assertions)
         == Ok(".references((): d.AnyPgColumn => Author.id" + SameOptions(Some("cascade")) + ")")
      && Columns(PostModel().fields, ast).Ok? && |Columns(PostModel().fields, ast).value| == 1
      && IsRelationField(AuthorModel().fields[1].1, ast)
      && Columns(AuthorModel().fields, ast).Ok? && |Columns(AuthorModel().fields, ast).value| == 1
  {
    var ast := EMPTY_AST.(models := [("Author", AuthorModel()), ("Post", PostModel())]);
    AuthorSuffix();
    AssertionsTextSingle(PrimaryKey);
    PostColumns(ast);
    AuthorColumns(ast);
  }

  lemma AuthorSuffix()
    ensures AssertionsText([Relation(AuthorRelation())])
      == Ok(".references((): d.AnyPgColumn => Author.id" + SameOptions(Some("cascade")) + ")")
  {
    RelationOptions(AuthorRelation());
    AssertionsTextSingle(Relation(AuthorRelation()));
    assert ReferenceHead(AuthorRelation()) == ".references((): d.AnyPgColumn => Author.id";
  }

  lemma PostColumns(ast: AllAst)
    requires ast == EMPTY_AST.(models := [("Author", AuthorModel()), ("Post", PostModel())])
    requires AssertionsText([Relation(AuthorRelation())]).Ok?
    ensures Columns(PostModel().fields, ast).Ok? && |Columns(PostModel().fields, ast).value| == 1
  {
    var fs := PostModel().fields;
    assert Keys(ast.models) == ["Author", "Post"];
    assert !StartsWith("Int", "Unsupported");
    assert !IsRelationField(fs[0].1, ast);
    assert fs[1..] == [];
  }

  lemma AuthorColumns(ast: AllAst)
    requires ast == EMPTY_AST.(models := [("Author", AuthorModel()), ("Post", PostModel())])
    requires AssertionsText([PrimaryKey]).Ok?
    ensures IsRelationField(AuthorModel().fields[1].1, ast)
    ensures Columns(AuthorModel().fields, ast).Ok? && |Columns(AuthorModel().fields, ast).value| == 1
  {
    var fs := AuthorModel().fields;
    assert Keys(ast.models) == ["Author", "Post"];
    assert !StartsWith("Int", "Unsupported");
    assert !IsRelationField(fs[0].1, ast);
    assert IsRelationField(fs[1].1, ast);
    assert ColumnFields(fs[2..], ast) == [];
  }
}
