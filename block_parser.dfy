/** The line-driven state machine of prisma-to-ast.ts (`prismaToAST`):
    input normalisation, block headers, block bodies by block kind, and the
    relation flush when a block closes. */
module BlockParser {
  import opened Wrappers
  import opened Assoc
  import opened JsString
  import opened Ast
  import opened ModelLines

  // -------------------------------------------------------- normalisation

  /** A raw line cut at its first `//` (quoted or not) and trimmed. */
  function CutComment(line: string): (r: string)
    ensures IsTrimmed(r) && !Contains(r, "//")
    ensures var i := IndexOf(line, "//"); r == Trim(if i < 0 then line else line[..i])
  {
    CutCommentFree(line);
    SplitCutsAtFirst(line, "//");
    Trim(Split(line, "//")[0])
  }

  lemma CutCommentFree(line: string)
    ensures !Contains(Trim(Split(line, "//")[0]), "//")
  {
    FirstPieceFree(line, "//");
    TrimKeepsFree(Split(line, "//")[0], "//");
  }

  lemma TrimKeepsFree(p: string, t: string)
    requires !Contains(p, t)
    ensures !Contains(Trim(p), t)
  {
    TrimIsInfix(p);
    if Contains(Trim(p), t) {
      InfixContains(p, LeadingWhite(p), LeadingWhite(p) + |Trim(p)|, t);
    }
  }

  /** A line the parser looks at: not empty, trimmed and free of `//`. */
  predicate Kept(line: string) {
    line != [] && IsTrimmed(line) && !Contains(line, "//")
  }

  /** What one raw line contributes: its cut form, unless that is empty. */
  function Piece(line: string): (r: seq<string>)
    ensures |r| <= 1 && forall i :: 0 <= i < |r| ==> Kept(r[i])
  {
    var t := CutComment(line);
    if t == [] then [] else [t]
  }

  /** `lines.map(cut).filter(Boolean)`: the cut lines that are not empty. */
  function NormalisedLines(lines: seq<string>): (r: seq<string>)
    ensures forall i :: 0 <= i < |r| ==> Kept(r[i])
  {
    if lines == [] then [] else Piece(lines[0]) + NormalisedLines(lines[1..])
  }

  /** The lines `prismaToAST` walks: the text split at `\n`, then normalised. */
  function Normalise(text: string): seq<string> {
    NormalisedLines(Split(text, "\n"))
  }

  /** Normalisation works line by line and keeps the input order: the
      result for `a + b` is the result for `a` followed by that for `b`. */
  lemma {:induction false} NormalisedLinesAppend(a: seq<string>, b: seq<string>)
    ensures NormalisedLines(a + b) == NormalisedLines(a) + NormalisedLines(b)
  {
    if a == [] {
      assert a + b == b;
    } else {
      var ab := a + b;
      assert ab[0] == a[0];
      assert ab[1..] == a[1..] + b;
      NormalisedLinesAppend(a[1..], b);
      AppendAssoc(Piece(a[0]), NormalisedLines(a[1..]), NormalisedLines(b));
    }
  }

  // ------------------------------------------------------------ the state

  /** The open block: the parser state together with the entity it
      registered, which every body line updates. Generators and datasources
      have no name of their own, so the block keeps the key. */
  datatype Block =
    | Idle
    | InModel(model: Model)
    | InView(view: View)
    | InEnum(enum: Enum)
    | InGenerator(genName: string, generator: Generator)
    | InDatasource(dsName: string, datasource: DataSource)

  /** The AST built so far, the open block and the staged relations. */
  datatype ParserState = ParserState(ast: AllAst, block: Block, staged: seq<Staged>)

  const INITIAL := ParserState(EMPTY_AST, Idle, [])

  /** The open block's entity is the one registered in the AST under its key. */
  predicate Consistent(st: ParserState) {
    match st.block
    case Idle => true
    case InModel(m) => Get(st.ast.models, m.name) == Some(m)
    case InView(v) => Get(st.ast.views, v.name) == Some(v)
    case InEnum(e) => Get(st.ast.enums, e.name) == Some(e)
    case InGenerator(n, g) => Get(st.ast.generators, n) == Some(g)
    case InDatasource(n, d) => Get(st.ast.datasources, n) == Some(d)
  }

  /** What the parser keeps true of its state: the AST is well formed, the
      open entity is registered, and a model or view block is well formed. */
  predicate Valid(st: ParserState) {
    && WellFormed(st.ast) && Consistent(st)
    && (st.block.InModel? ==> TableWellFormed((st.block.model.name, st.block.model)))
    && (st.block.InView? ==> TableWellFormed((st.block.view.name, st.block.view)))
  }

  // ---------------------------------------------------------- block close

  /** The relations staged for the field `k`, in staging order. */
  function RelationsFor(staged: seq<Staged>, k: string): seq<FieldAssertion> {
    if staged == [] then []
    else (if staged[0].fieldName == k then [Relation(staged[0].relation)] else [])
         + RelationsFor(staged[1..], k)
  }

  /** Flushing the staging list: each staged relation is pushed onto the
      assertions of the field it names; a name that is not a field of the
      block aborts the run. */
  function Flush(fields: Assoc<Field>, staged: seq<Staged>): Result<Assoc<Field>>
    decreases |staged|
  {
    if staged == [] then Ok(fields)
    else
      match Get(fields, staged[0].fieldName)
      case None => Err(RelationTargetMissing)
      case Some(f) =>
        Flush(Put(fields, staged[0].fieldName, f.(assertions := f.assertions + [Relation(staged[0].relation)])),
              staged[1..])
  }

  /** The flush succeeds exactly when every staged relation names a field
      of the block. */
  lemma {:induction false} FlushOkIff(fields: Assoc<Field>, staged: seq<Staged>)
    ensures Flush(fields, staged).Ok?
      <==> forall i :: 0 <= i < |staged| ==> HasKey(fields, staged[i].fieldName)
    decreases |staged|
  {
    if staged != [] {
      var s := staged[0];
      match Get(fields, s.fieldName)
      case None =>
      case Some(f) =>
        var next := Put(fields, s.fieldName, f.(assertions := f.assertions + [Relation(s.relation)]));
        FlushOkIff(next, staged[1..]);
        assert Keys(next) == Keys(fields);
        assert forall i :: 1 <= i < |staged| ==> staged[i] == staged[1..][i - 1];
    }
  }

  /** A successful flush keeps the field names and their order. */
  lemma {:induction false} FlushKeys(fields: Assoc<Field>, staged: seq<Staged>)
    requires Flush(fields, staged).Ok?
    ensures Keys(Flush(fields, staged).value) == Keys(fields)
    decreases |staged|
  {
    if staged != [] {
      var s := staged[0];
      var f := Get(fields, s.fieldName).value;
      FlushKeys(Put(fields, s.fieldName, f.(assertions := f.assertions + [Relation(s.relation)])), staged[1..]);
    }
  }

  /** A successful flush appends to each field, in staging order, the
      relations staged for it, and changes nothing else about the field. */
  lemma {:induction false} FlushField(fields: Assoc<Field>, staged: seq<Staged>, k: string)
    requires Flush(fields, staged).Ok? && HasKey(fields, k)
    ensures var f := Get(fields, k).value;
      Get(Flush(fields, staged).value, k) == Some(f.(assertions := f.assertions + RelationsFor(staged, k)))
    decreases |staged|
  {
    var f := Get(fields, k).value;
    if staged == [] {
      assert f.assertions + [] == f.assertions;
    } else {
      var s := staged[0];
      var g := Get(fields, s.fieldName).value;
      var g' := g.(assertions := g.assertions + [Relation(s.relation)]);
      var next := Put(fields, s.fieldName, g');
      var rest := RelationsFor(staged[1..], k);
      assert Flush(fields, staged) == Flush(next, staged[1..]);
      assert HasKey(next, k) && Get(next, k).value == (if s.fieldName == k then g' else f) by {
        PutGet(fields, s.fieldName, g', k);
      }
      assert RelationsFor(staged, k) == (if s.fieldName == k then [Relation(s.relation)] else []) + rest;
      FlushField(next, staged[1..], k);
      if s.fieldName == k {
        AppendAssoc(f.assertions, [Relation(s.relation)], rest);
      } else {
        assert [] + rest == rest;
      }
    }
  }

  /** The flush keeps a block well formed. */
  lemma {:induction false} FlushKeepsTable(m: Model, staged: seq<Staged>)
    requires TableWellFormed((m.name, m))
    requires Flush(m.fields, staged).Ok?
    ensures TableWellFormed((m.name, m.(fields := Flush(m.fields, staged).value)))
    decreases |staged|
  {
    if staged != [] {
      var s := staged[0];
      var f := Get(m.fields, s.fieldName).value;
      var f' := f.(assertions := f.assertions + [Relation(s.relation)]);
      GetIn(m.fields, s.fieldName);
      PutKeepsKeysUnique(m.fields, s.fieldName, f');
      PutEntries(m.fields, s.fieldName, f');
      FlushKeepsTable(m.(fields := Put(m.fields, s.fieldName, f')), staged[1..]);
    }
  }

  // ------------------------------------------------------------- one line

  /** The five header prefixes, tested in this order after `}`. */
  predicate IsHeader(line: string) {
    || StartsWith(line, "model ") || StartsWith(line, "view ") || StartsWith(line, "enum ")
    || StartsWith(line, "generator ") || StartsWith(line, "datasource ")
  }

  /** A `key = value` line of a generator or datasource: the text split at
      ` = `, the first two pieces trimmed, so a value is cut at a second
      ` = `; without ` = ` the value is `undefined`. */
  function PropertyOf(line: string): (r: (string, Option<string>))
    ensures var i := IndexOf(line, " = "); r.0 == Trim(if i < 0 then line else line[..i])
    ensures r.1.None? <==> !Contains(line, " = ")
    ensures r.1.Some? ==> IsTrimmed(r.1.value)
    ensures r.1.Some? ==> r.1.value == Trim(Split(line[IndexOf(line, " = ") + 3..], " = ")[0])
  {
    SplitCutsAtFirst(line, " = ");
    var parts := Split(line, " = ");
    (Trim(parts[0]), if |parts| > 1 then Some(Trim(parts[1])) else None)
  }

  /** The `}` line: flush the staging list into the open model or view, then
      close the block. Any other block has no fields to flush into. */
  function Close(st: ParserState): (r: Result<ParserState>)
    ensures r.Ok? ==> r.value.block == Idle && r.value.staged == []
    ensures r.Err? ==> st.staged != []
  {
    match st.block
    case InModel(m) =>
      var fields :- Flush(m.fields, st.staged);
      var m' := m.(fields := fields);
      Ok(ParserState(st.ast.(models := Put(st.ast.models, m.name, m')), Idle, []))
    case InView(v) =>
      var fields :- Flush(v.fields, st.staged);
      var v' := v.(fields := fields);
      Ok(ParserState(st.ast.(views := Put(st.ast.views, v.name, v')), Idle, []))
    case _ =>
      if st.staged == [] then Ok(ParserState(st.ast, Idle, [])) else Err(RelationTargetMissing)
  }

  /** A header line: a fresh, empty entity registered at once under the
      name `line.slice(k, -2)`. */
  function Open(st: ParserState, line: string): (r: ParserState)
    requires IsHeader(line)
    ensures r.staged == st.staged && !r.block.Idle? && Consistent(r)
  {
    if StartsWith(line, "model ") then
      var m := Model(Slice(line, 6, -2), [], []);
      PutGet(st.ast.models, m.name, m, m.name);
      st.(ast := st.ast.(models := Put(st.ast.models, m.name, m)), block := InModel(m))
    else if StartsWith(line, "view ") then
      var v := Model(Slice(line, 5, -2), [], []);
      PutGet(st.ast.views, v.name, v, v.name);
      st.(ast := st.ast.(views := Put(st.ast.views, v.name, v)), block := InView(v))
    else if StartsWith(line, "enum ") then
      var e := Enum(Slice(line, 5, -2), []);
      PutGet(st.ast.enums, e.name, e, e.name);
      st.(ast := st.ast.(enums := Put(st.ast.enums, e.name, e)), block := InEnum(e))
    else if StartsWith(line, "generator ") then
      var n := Slice(line, 10, -2);
      PutGet(st.ast.generators, n, Generator([]), n);
      st.(ast := st.ast.(generators := Put(st.ast.generators, n, Generator([]))), block := InGenerator(n, Generator([])))
    else
      var n := Slice(line, 11, -2);
      PutGet(st.ast.datasources, n, DataSource([]), n);
      st.(ast := st.ast.(datasources := Put(st.ast.datasources, n, DataSource([]))), block := InDatasource(n, DataSource([])))
  }

  /** Any other line, handled by the kind of the open block. */
  function Body(st: ParserState, line: string): (r: Result<ParserState>)
    ensures st.block.Idle? ==> r == Ok(st)
    ensures r.Err? ==> st.block.InModel? || st.block.InView?
    ensures r.Ok? && !st.block.Idle? ==> !r.value.block.Idle? && Consistent(r.value)
  {
    match st.block
    case Idle => Ok(st)
    case InModel(m) =>
      var (m', staged) :- AfterModelLine(line, m, st.staged);
      PutGet(st.ast.models, m.name, m', m.name);
      Ok(ParserState(st.ast.(models := Put(st.ast.models, m.name, m')), InModel(m'), staged))
    case InView(v) =>
      var (v', staged) :- AfterModelLine(line, v, st.staged);
      PutGet(st.ast.views, v.name, v', v.name);
      Ok(ParserState(st.ast.(views := Put(st.ast.views, v.name, v')), InView(v'), staged))
    case InEnum(e) =>
      var e' := e.(values := e.values + [line]);
      PutGet(st.ast.enums, e.name, e', e.name);
      Ok(st.(ast := st.ast.(enums := Put(st.ast.enums, e.name, e')), block := InEnum(e')))
    case InGenerator(n, g) =>
      var (k, v) := PropertyOf(line);
      var g' := Generator(Put(g.props, k, v));
      PutGet(st.ast.generators, n, g', n);
      Ok(st.(ast := st.ast.(generators := Put(st.ast.generators, n, g')), block := InGenerator(n, g')))
    case InDatasource(n, d) =>
      var (k, v) := PropertyOf(line);
      var d' := DataSource(Put(d.props, k, v));
      PutGet(st.ast.datasources, n, d', n);
      Ok(st.(ast := st.ast.(datasources := Put(st.ast.datasources, n, d')), block := InDatasource(n, d')))
  }

  /** One normalised line: `}` first, then the headers, then the body.
      A header never fails; a line fails only when it closes a block with
      relations still staged or when it is a model or view line. */
  function Step(st: ParserState, line: string): (r: Result<ParserState>)
    ensures r.Err? ==> if line == "}" then st.staged != [] else !IsHeader(line) && (st.block.InModel? || st.block.InView?)
    ensures r.Ok? ==> (r.value.block.Idle? <==> line == "}" || (!IsHeader(line) && st.block.Idle?))
  {
    if line == "}" then Close(st)
    else if IsHeader(line) then Ok(Open(st, line))
    else Body(st, line)
  }

  /** The lines processed in order; the first failure aborts the run. */
  function Run(st: ParserState, lines: seq<string>): Result<ParserState>
    decreases |lines|
  {
    if lines == [] then Ok(st)
    else
      var st' :- Step(st, lines[0]);
      Run(st', lines[1..])
  }

  /** `prismaToAST(text)`: the AST after the last line, whether or not the
      last block was closed. Every AST it returns is well formed: each name
      is registered once per map, every model, view and enum is stored under
      its own name, its fields have distinct names, and no field that carried
      `@relation` is among them. */
  function ParseSchema(text: string): (r: Result<AllAst>)
    ensures r.Ok? ==> WellFormed(r.value)
  {
    var lines := Normalise(text);
    var st :- Run(INITIAL, lines);
    InitialValid();
    RunKeepsValid(INITIAL, lines);
    Ok(st.ast)
  }

  // ------------------------------------------------------------ properties

  /** A model header registers a fresh empty model under its name, replacing
      an earlier model of that name, and opens it; every other entry of every
      map stays as it was. */
  lemma ModelHeader(st: ParserState, x: string, k: string)
    ensures var r := Step(st, "model " + x + " {");
      && r.Ok? && r.value.block == InModel(Model(x, [], []))
      && Get(r.value.ast.models, k) == (if k == x then Some(Model(x, [], [])) else Get(st.ast.models, k))
      && r.value.ast.(models := st.ast.models) == st.ast
      && r.value.staged == st.staged
  {
    var line := "model " + x + " {";
    assert line[..6] == "model ";
    assert Slice(line, 6, -2) == x;
    DiffersAt(line, "}", 0);
    PutGet(st.ast.models, x, Model(x, [], []), k);
  }

  /** A view header does the same in the view map. */
  lemma ViewHeader(st: ParserState, x: string, k: string)
    ensures var r := Step(st, "view " + x + " {");
      && r.Ok? && r.value.block == InView(Model(x, [], []))
      && Get(r.value.ast.views, k) == (if k == x then Some(Model(x, [], [])) else Get(st.ast.views, k))
      && r.value.ast.(views := st.ast.views) == st.ast
      && r.value.staged == st.staged
  {
    var line := "view " + x + " {";
    assert line[..5] == "view ";
    DiffersAt(line, "model ", 0);
    DiffersAt(line, "}", 0);
    assert Slice(line, 5, -2) == x;
    PutGet(st.ast.views, x, Model(x, [], []), k);
  }

  /** An enum header registers a fresh enum with no values. */
  lemma EnumHeader(st: ParserState, x: string, k: string)
    ensures var r := Step(st, "enum " + x + " {");
      && r.Ok? && r.value.block == InEnum(Enum(x, []))
      && Get(r.value.ast.enums, k) == (if k == x then Some(Enum(x, [])) else Get(st.ast.enums, k))
      && r.value.ast.(enums := st.ast.enums) == st.ast
      && r.value.staged == st.staged
  {
    var line := "enum " + x + " {";
    assert line[..5] == "enum ";
    DiffersAt(line, "model ", 0);
    DiffersAt(line, "view ", 0);
    DiffersAt(line, "}", 0);
    assert Slice(line, 5, -2) == x;
    PutGet(st.ast.enums, x, Enum(x, []), k);
  }

  /** Inside an enum, each body line is appended verbatim as a value; every
      other enum and every other map stays as it was. */
  lemma EnumBodyLine(st: ParserState, e: Enum, line: string, k: string)
    requires st.block == InEnum(e)
    requires line != "}" && !IsHeader(line)
    ensures var r := Step(st, line);
      && r.Ok? && r.value.block == InEnum(e.(values := e.values + [line]))
      && Get(r.value.ast.enums, k)
         == (if k == e.name then Some(e.(values := e.values + [line])) else Get(st.ast.enums, k))
      && r.value.ast.(enums := st.ast.enums) == st.ast
      && r.value.staged == st.staged
  {
    PutGet(st.ast.enums, e.name, e.(values := e.values + [line]), k);
  }

  /** Inside a generator, a body line stores its trimmed value under its
      trimmed key, and every other property keeps its value; every other
      generator and every other map stays as it was. */
  lemma GeneratorBodyLine(st: ParserState, n: string, g: Generator, line: string, j: string, x: string)
    requires st.block == InGenerator(n, g)
    requires line != "}" && !IsHeader(line)
    ensures var r := Step(st, line);
      && r.Ok? && r.value.staged == st.staged && r.value.block.InGenerator?
      && r.value.block.genName == n
      && Get(r.value.ast.generators, x)
         == (if x == n then Some(r.value.block.generator) else Get(st.ast.generators, x))
      && r.value.ast.(generators := st.ast.generators) == st.ast
      && Get(r.value.block.generator.props, j)
         == if j == PropertyOf(line).0 then Some(PropertyOf(line).1) else Get(g.props, j)
  {
    var (k, v) := PropertyOf(line);
    var g' := Generator(Put(g.props, k, v));
    assert Step(st, line) == Body(st, line);
    assert Body(st, line) == Ok(st.(ast := st.ast.(generators := Put(st.ast.generators, n, g')), block := InGenerator(n, g')));
    PutGet(g.props, k, v, j);
    PutGet(st.ast.generators, n, g', x);
  }

  /** Inside a datasource, likewise. */
  lemma DatasourceBodyLine(st: ParserState, n: string, d: DataSource, line: string, j: string, x: string)
    requires st.block == InDatasource(n, d)
    requires line != "}" && !IsHeader(line)
    ensures var r := Step(st, line);
      && r.Ok? && r.value.staged == st.staged && r.value.block.InDatasource?
      && r.value.block.dsName == n
      && Get(r.value.ast.datasources, x)
         == (if x == n then Some(r.value.block.datasource) else Get(st.ast.datasources, x))
      && r.value.ast.(datasources := st.ast.datasources) == st.ast
      && Get(r.value.block.datasource.props, j)
         == if j == PropertyOf(line).0 then Some(PropertyOf(line).1) else Get(d.props, j)
  {
    var (k, v) := PropertyOf(line);
    var d' := DataSource(Put(d.props, k, v));
    assert Step(st, line) == Body(st, line);
    assert Body(st, line) == Ok(st.(ast := st.ast.(datasources := Put(st.ast.datasources, n, d')), block := InDatasource(n, d')));
    PutGet(d.props, k, v, j);
    PutGet(st.ast.datasources, n, d', x);
  }

  /** A key and a value separated by ` = ` are read back trimmed, as long as
      the key holds no whitespace and the value no ` = `. */
  lemma PropertyOfAssignment(k: string, v: string)
    requires NoWhite(k) && !Contains(v, " = ")
    ensures PropertyOf(k + " = " + v) == (Trim(k), Some(Trim(v)))
  {
    var line := k + " = " + v;
    var i := |k|;
    assert line[..i] == k && line[i + 3..] == v;
    assert OccursAt(line, " = ", i) by { assert line[i..i + 3] == " = "; }
    forall j | 0 <= j < i ensures !OccursAt(line, " = ", j) {
      assert line[j] == k[j] && !IsWhite(k[j]);
    }
    IndexOfIsLeast(line, " = ", i);
    assert Split(v, " = ") == [v];
  }

  /** `}` closes the block and empties the staging list; in a model, every
      staged relation is appended, in staging order, to the assertions of the
      field it names, and a name that is not a field aborts the run. The
      model keeps its name, its constraints and its field names; every other
      model and every other map stays as it was. */
  lemma CloseModel(st: ParserState, m: Model, x: string)
    requires st.block == InModel(m)
    ensures var r := Step(st, "}");
      && (r.Ok? <==> forall i :: 0 <= i < |st.staged| ==> HasKey(m.fields, st.staged[i].fieldName))
      && (r.Ok? ==>
           && r.value.block == Idle && r.value.staged == []
           && r.value.ast.(models := st.ast.models) == st.ast
           && (x != m.name ==> Get(r.value.ast.models, x) == Get(st.ast.models, x))
           && var m' := Get(r.value.ast.models, m.name).value;
           && m'.name == m.name && m'.assertions == m.assertions && Keys(m'.fields) == Keys(m.fields)
           && forall k :: HasKey(m.fields, k) ==>
                var f := Get(m.fields, k).value;
                Get(m'.fields, k) == Some(f.(assertions := f.assertions + RelationsFor(st.staged, k))))
  {
    FlushOkIff(m.fields, st.staged);
    if Flush(m.fields, st.staged).Ok? {
      var m' := m.(fields := Flush(m.fields, st.staged).value);
      FlushKeys(m.fields, st.staged);
      forall k | HasKey(m.fields, k)
        ensures var f := Get(m.fields, k).value;
          Get(m'.fields, k) == Some(f.(assertions := f.assertions + RelationsFor(st.staged, k)))
      {
        FlushField(m.fields, st.staged, k);
      }
      PutGet(st.ast.models, m.name, m', m.name);
      PutGet(st.ast.models, m.name, m', x);
    }
  }

  /** Every step keeps the parser state valid. */
  lemma StepKeepsValid(st: ParserState, line: string)
    requires Valid(st)
    requires Step(st, line).Ok?
    ensures Valid(Step(st, line).value)
  {
    if line == "}" {
      CloseKeepsValid(st);
    } else if IsHeader(line) {
      OpenKeepsValid(st, line);
    } else {
      BodyKeepsValid(st, line);
    }
  }

  lemma CloseKeepsValid(st: ParserState)
    requires Valid(st) && Close(st).Ok?
    ensures Valid(Close(st).value)
  {
    match st.block
    case InModel(m) =>
      FlushKeepsTable(m, st.staged);
      RegisterModel(st.ast, m.(fields := Flush(m.fields, st.staged).value), []);
    case InView(v) =>
      FlushKeepsTable(v, st.staged);
      RegisterView(st.ast, v.(fields := Flush(v.fields, st.staged).value), []);
    case _ =>
  }

  lemma OpenKeepsValid(st: ParserState, line: string)
    requires Valid(st) && IsHeader(line)
    ensures Valid(Open(st, line))
  {
    if StartsWith(line, "model ") {
      RegisterModel(st.ast, Model(Slice(line, 6, -2), [], []), st.staged);
    } else if StartsWith(line, "view ") {
      RegisterView(st.ast, Model(Slice(line, 5, -2), [], []), st.staged);
    } else if StartsWith(line, "enum ") {
      RegisterEnum(st.ast, Enum(Slice(line, 5, -2), []), st.staged);
    } else if StartsWith(line, "generator ") {
      RegisterGenerator(st.ast, Slice(line, 10, -2), Generator([]), st.staged);
    } else {
      RegisterDatasource(st.ast, Slice(line, 11, -2), DataSource([]), st.staged);
    }
  }

  /** Storing a well-formed model under its name and opening it keeps the
      state valid; the same holds for each kind of block below. */
  lemma RegisterModel(ast: AllAst, m: Model, staged: seq<Staged>)
    requires WellFormed(ast) && TableWellFormed((m.name, m))
    ensures Valid(ParserState(ast.(models := Put(ast.models, m.name, m)), InModel(m), staged))
  {
    PutKeepsKeysUnique(ast.models, m.name, m);
    PutEntries(ast.models, m.name, m);
    PutGet(ast.models, m.name, m, m.name);
  }

  lemma RegisterView(ast: AllAst, v: View, staged: seq<Staged>)
    requires WellFormed(ast) && TableWellFormed((v.name, v))
    ensures Valid(ParserState(ast.(views := Put(ast.views, v.name, v)), InView(v), staged))
  {
    PutKeepsKeysUnique(ast.views, v.name, v);
    PutEntries(ast.views, v.name, v);
    PutGet(ast.views, v.name, v, v.name);
  }

  lemma RegisterEnum(ast: AllAst, e: Enum, staged: seq<Staged>)
    requires WellFormed(ast)
    ensures Valid(ParserState(ast.(enums := Put(ast.enums, e.name, e)), InEnum(e), staged))
  {
    PutKeepsKeysUnique(ast.enums, e.name, e);
    PutEntries(ast.enums, e.name, e);
    PutGet(ast.enums, e.name, e, e.name);
  }

  lemma RegisterGenerator(ast: AllAst, n: string, g: Generator, staged: seq<Staged>)
    requires WellFormed(ast)
    ensures Valid(ParserState(ast.(generators := Put(ast.generators, n, g)), InGenerator(n, g), staged))
  {
    PutKeepsKeysUnique(ast.generators, n, g);
    PutGet(ast.generators, n, g, n);
  }

  lemma RegisterDatasource(ast: AllAst, n: string, d: DataSource, staged: seq<Staged>)
    requires WellFormed(ast)
    ensures Valid(ParserState(ast.(datasources := Put(ast.datasources, n, d)), InDatasource(n, d), staged))
  {
    PutKeepsKeysUnique(ast.datasources, n, d);
    PutGet(ast.datasources, n, d, n);
  }

  lemma BodyKeepsValid(st: ParserState, line: string)
    requires Valid(st) && Body(st, line).Ok?
    ensures Valid(Body(st, line).value)
  {
    match st.block
    case Idle =>
    case InModel(m) => ModelBodyKeepsValid(st, m, line);
    case InView(v) => ViewBodyKeepsValid(st, v, line);
    case InEnum(e) =>
      RegisterEnum(st.ast, e.(values := e.values + [line]), st.staged);
    case InGenerator(n, g) =>
      var (k, v) := PropertyOf(line);
      RegisterGenerator(st.ast, n, Generator(Put(g.props, k, v)), st.staged);
    case InDatasource(n, d) =>
      var (k, v) := PropertyOf(line);
      RegisterDatasource(st.ast, n, DataSource(Put(d.props, k, v)), st.staged);
  }

  lemma ModelBodyKeepsValid(st: ParserState, m: Model, line: string)
    requires Valid(st) && st.block == InModel(m) && AfterModelLine(line, m, st.staged).Ok?
    ensures Valid(Body(st, line).value)
  {
    var (m', staged) := AfterModelLine(line, m, st.staged).value;
    ModelLineKeepsTable(line, m, st.staged);
    RegisterModel(st.ast, m', staged);
  }

  lemma ViewBodyKeepsValid(st: ParserState, v: View, line: string)
    requires Valid(st) && st.block == InView(v) && AfterModelLine(line, v, st.staged).Ok?
    ensures Valid(Body(st, line).value)
  {
    var (v', staged) := AfterModelLine(line, v, st.staged).value;
    ModelLineKeepsTable(line, v, st.staged);
    RegisterView(st.ast, v', staged);
  }

  /** A line inside a model or view keeps the block well formed: its name is
      kept, no key appears twice, and no stored field is marked `ignore`. */
  lemma ModelLineKeepsTable(line: string, m: Model, staged: seq<Staged>)
    requires TableWellFormed((m.name, m))
    requires AfterModelLine(line, m, staged).Ok?
    ensures var m' := AfterModelLine(line, m, staged).value.0;
      TableWellFormed((m'.name, m')) && m'.name == m.name
  {
    if !(StartsWith(line, "@@index") || StartsWith(line, "@@unique")) {
      var fl := SplitFieldLine(line).value;
      var start := LineWork(Field(FieldType(fl.typeToken), [], false), m.assertions, staged);
      var w := ApplyAttributes(AttrTokens(fl.rest), fl.name, start).value;
      if !w.field.ignore {
        PutKeepsKeysUnique(m.fields, fl.name, w.field);
        PutEntries(m.fields, fl.name, w.field);
      }
    }
  }

  /** Running a sequence of lines keeps the state valid. */
  lemma {:induction false} RunKeepsValid(st: ParserState, lines: seq<string>)
    requires Valid(st) && Run(st, lines).Ok?
    ensures Valid(Run(st, lines).value)
    decreases |lines|
  {
    if lines != [] {
      StepKeepsValid(st, lines[0]);
      RunKeepsValid(Step(st, lines[0]).value, lines[1..]);
    }
  }

  lemma InitialValid()
    ensures Valid(INITIAL)
  {
  }

  /** Running `a + b` is running `a`, then `b` from where `a` left off. */
  lemma {:induction false} RunAppend(st: ParserState, a: seq<string>, b: seq<string>)
    ensures Run(st, a + b) == match Run(st, a) case Err(e) => Err(e) case Ok(s) => Run(s, b)
    decreases |a|
  {
    if a == [] {
      assert a + b == b;
    } else {
      assert (a + b)[0] == a[0] && (a + b)[1..] == a[1..] + b;
      match Step(st, a[0])
      case Err(_) =>
      case Ok(s) => RunAppend(s, a[1..], b);
    }
  }

  // ---------------------------------------------------------- the method

  /** The flush loop of the `}` branch: each staged relation pushed onto
      its field, in place, the first missing field aborting. */
  method FlushStaged(fields0: Assoc<Field>, staged: seq<Staged>) returns (r: Result<Assoc<Field>>)
    ensures r == Flush(fields0, staged)
  {
    var fields := fields0;
    for j := 0 to |staged|
      invariant Flush(fields0, staged) == Flush(fields, staged[j..])
    {
      var s := staged[j];
      assert staged[j..][0] == s && staged[j..][1..] == staged[j + 1..];
      var target := Get(fields, s.fieldName);
      if target.None? {
        return Err(RelationTargetMissing);
      }
      var f := target.value;
      fields := Put(fields, s.fieldName, f.(assertions := f.assertions + [Relation(s.relation)]));
    }
    assert staged[|staged|..] == [];
    return Ok(fields);
  }

  /** The `}` branch: flush into the open model or view, store it, and
      reset the block and the staging list. */
  method CloseBlock(ast: AllAst, current: Block, relationFields: seq<Staged>) returns (r: Result<ParserState>)
    ensures r == Close(ParserState(ast, current, relationFields))
  {
    var ast' := ast;
    if current.InModel? || current.InView? {
      var fields := if current.InModel? then current.model.fields else current.view.fields;
      var flushed := FlushStaged(fields, relationFields);
      if flushed.Err? {
        return Err(flushed.error);
      }
      if current.InModel? {
        var m := current.model.(fields := flushed.value);
        ast' := ast.(models := Put(ast.models, m.name, m));
      } else {
        var v := current.view.(fields := flushed.value);
        ast' := ast.(views := Put(ast.views, v.name, v));
      }
    } else if relationFields != [] {
      return Err(RelationTargetMissing);
    }
    return Ok(ParserState(ast', Idle, []));
  }

  /** A body line, dispatched on the open block. */
  method BodyLine(ast: AllAst, current: Block, relationFields: seq<Staged>, line: string)
    returns (r: Result<ParserState>)
    ensures r == Body(ParserState(ast, current, relationFields), line)
  {
    match current {
      case Idle =>
        return Ok(ParserState(ast, current, relationFields));
      case InModel(m) =>
        var res := HandleModel(line, m, relationFields);
        if res.Err? {
          return Err(res.error);
        }
        var (m', staged) := res.value;
        return Ok(ParserState(ast.(models := Put(ast.models, m.name, m')), InModel(m'), staged));
      case InView(v) =>
        var res := HandleModel(line, v, relationFields);
        if res.Err? {
          return Err(res.error);
        }
        var (v', staged) := res.value;
        return Ok(ParserState(ast.(views := Put(ast.views, v.name, v')), InView(v'), staged));
      case InEnum(e) =>
        var e' := e.(values := e.values + [line]);
        return Ok(ParserState(ast.(enums := Put(ast.enums, e.name, e')), InEnum(e'), relationFields));
      case InGenerator(n, g) =>
        var (k, v) := PropertyOf(line);
        var g' := Generator(Put(g.props, k, v));
        return Ok(ParserState(ast.(generators := Put(ast.generators, n, g')), InGenerator(n, g'), relationFields));
      case InDatasource(n, d) =>
        var (k, v) := PropertyOf(line);
        var d' := DataSource(Put(d.props, k, v));
        return Ok(ParserState(ast.(datasources := Put(ast.datasources, n, d')), InDatasource(n, d'), relationFields));
    }
  }

  /** `prismaToAST`: one pass over the normalised lines, updating the AST,
      the open block and the staging list in place as the source does. */
  method PrismaToAst(text: string) returns (r: Result<AllAst>)
    ensures r == ParseSchema(text)
  {
    var lines := Normalise(text);
    var ast := EMPTY_AST;
    var current := Idle;
    var relationFields: seq<Staged> := [];
    for i := 0 to |lines|
      invariant Run(INITIAL, lines) == Run(ParserState(ast, current, relationFields), lines[i..])
    {
      var line := lines[i];
      ghost var before := ParserState(ast, current, relationFields);
      RunStep(before, lines, i);
      var next: Result<ParserState>;
      if line == "}" {
        next := CloseBlock(ast, current, relationFields);
      } else if StartsWith(line, "model ") {
        var m := Model(Slice(line, 6, -2), [], []);
        next := Ok(ParserState(ast.(models := Put(ast.models, m.name, m)), InModel(m), relationFields));
      } else if StartsWith(line, "view ") {
        var v := Model(Slice(line, 5, -2), [], []);
        next := Ok(ParserState(ast.(views := Put(ast.views, v.name, v)), InView(v), relationFields));
      } else if StartsWith(line, "enum ") {
        var e := Enum(Slice(line, 5, -2), []);
        next := Ok(ParserState(ast.(enums := Put(ast.enums, e.name, e)), InEnum(e), relationFields));
      } else if StartsWith(line, "generator ") {
        var n := Slice(line, 10, -2);
        next := Ok(ParserState(ast.(generators := Put(ast.generators, n, Generator([]))),
                               InGenerator(n, Generator([])), relationFields));
      } else if StartsWith(line, "datasource ") {
        var n := Slice(line, 11, -2);
        next := Ok(ParserState(ast.(datasources := Put(ast.datasources, n, DataSource([]))),
                               InDatasource(n, DataSource([])), relationFields));
      } else {
        next := BodyLine(ast, current, relationFields, line);
      }
      assert next == Step(before, line);
      if next.Err? {
        return Err(next.error);
      }
      ast, current, relationFields := next.value.ast, next.value.block, next.value.staged;
    }
    assert lines[|lines|..] == [];
    return Ok(ast);
  }

  /** One step of the run over `lines[i..]`. */
  lemma RunStep(st: ParserState, lines: seq<string>, i: nat)
    requires i < |lines|
    ensures Run(st, lines[i..]) == match Step(st, lines[i]) case Err(e) => Err(e) case Ok(s) => Run(s, lines[i + 1..])
  {
    assert lines[i..][0] == lines[i] && lines[i..][1..] == lines[i + 1..];
  }
}
