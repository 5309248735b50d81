/** The lines inside a model or view block (prisma-to-ast.ts, `handleModel`
    and `fieldType`): block constraints, and field declarations with their
    type token and their attribute. */
module ModelLines {
  import opened Wrappers
  import opened Assoc
  import opened JsString
  import opened Ast
  import opened IndexParser

  // ---------------------------------------------------------------- types

  /** The type token a data type is written as: the base name, then `[]`
      for an array or `?` for an optional value. */
  function TypeToken(dt: FieldDataType): string {
    dt.name + match dt.count { case Many => "[]" case Maybe => "?" case Required => "" }
  }

  /** `fieldType(t)`: a trailing `[]` means many, otherwise a trailing `?`
      means maybe, otherwise the name is kept and no cardinality is set.
      Writing the result back as a token gives `t` again. */
  function FieldType(t: string): (r: FieldDataType)
    ensures TypeToken(r) == t
    ensures r.count == Many <==> EndsWith(t, "[]")
    ensures r.count == Maybe <==> !EndsWith(t, "[]") && EndsWith(t, "?")
  {
    if EndsWith(t, "[]") then FieldDataType(Slice(t, 0, -2), Many)
    else if EndsWith(t, "?") then FieldDataType(Slice(t, 0, -1), Maybe)
    else FieldDataType(t, Required)
  }

  // ----------------------------------------------------- the field regex

  /** The first whitespace at or after `from`, or `|s|`. */
  function NextWhite(s: string, from: nat): (r: nat)
    requires from <= |s|
    ensures from <= r <= |s| && NoWhite(s[from..r])
    ensures r < |s| ==> IsWhite(s[r])
    decreases |s| - from
  {
    if from == |s| || IsWhite(s[from]) then from else NextWhite(s, from + 1)
  }

  /** The end of the whitespace run that starts at `from`. */
  function WhiteRunEnd(s: string, from: nat): (r: nat)
    requires from <= |s|
    ensures from <= r <= |s| && AllWhite(s[from..r])
    ensures r < |s| ==> !IsWhite(s[r])
    ensures r == |s| && from < |s| ==> IsWhite(s[|s| - 1])
    decreases |s| - from
  {
    if from == |s| || !IsWhite(s[from]) then from else WhiteRunEnd(s, from + 1)
  }

  /** At index `c` the optional group `(:?\s+(.+))` matches through to the
      end: an optional colon, at least one whitespace, at least one more
      character. */
  predicate RestStartsAt(s: string, c: nat) {
    && c < |s|
    && ((s[c] == ':' && c + 2 < |s| && IsWhite(s[c + 1])) || (IsWhite(s[c]) && c + 1 < |s|))
  }

  /** Where the lazy type group stops: the first index from `from` on at
      which the rest of the line matches the optional group, or the end. */
  function TypeEnd(s: string, from: nat): (r: nat)
    requires from <= |s|
    ensures from <= r <= |s|
    ensures r == |s| || RestStartsAt(s, r)
    ensures forall p :: from <= p < r ==> !RestStartsAt(s, p)
    decreases |s| - from
  {
    if from == |s| || RestStartsAt(s, from) then from else TypeEnd(s, from + 1)
  }

  /** The groups of `/^(.+?)\s+(.+?)(:?\s+(.+))?$/`; `gap` is the text the
      `\s+` between the first two groups matched. */
  datatype FieldLine = FieldLine(name: string, gap: string, typeToken: string, rest: Option<string>)

  function RestText(rest: Option<string>): string {
    if rest.Some? then rest.value else ""
  }

  lemma AllWhitePrefix(s: string, a: nat, b: nat, b0: nat)
    requires a <= b <= b0 <= |s| && AllWhite(s[a..b0])
    ensures AllWhite(s[a..b])
  {
    assert s[a..b] == s[a..b0][..b - a];
  }

  /** Three cuts give four consecutive pieces; the last is the rest text. */
  lemma CutThree(s: string, a: nat, b: nat, c: nat)
    requires a <= b <= c <= |s|
    ensures s == s[..a] + s[a..b] + s[b..c] + RestText(if c < |s| then Some(s[c..]) else None)
  {
    if c == |s| {
      assert s == s[..a] + s[a..b] + s[b..c];
    } else {
      assert s == s[..a] + s[a..b] + s[b..c] + s[c..];
    }
  }

  /** The field regex: the name runs to the first whitespace after its first
      character; the `\s+` is as long as possible (giving back one character
      when the run reaches the end of the line); the type runs to the first
      place where the optional group can match, and the rest of the line, if
      any, is that group. No whitespace after the first character: no match. */
  function SplitFieldLine(line: string): (r: Option<FieldLine>)
    ensures r.Some? ==> var f := r.value;
      && line == f.name + f.gap + f.typeToken + RestText(f.rest)
      && f.name != [] && f.gap != [] && AllWhite(f.gap) && f.typeToken != []
  {
    if |line| < 2 then None
    else
      var a := NextWhite(line, 1);
      if a == |line| then None
      else
        var b0 := WhiteRunEnd(line, a);
        if b0 == |line| && b0 - a < 2 then None
        else
          var b := if b0 < |line| then b0 else |line| - 1;
          AllWhitePrefix(line, a, b, b0);
          var c := TypeEnd(line, b + 1);
          var rest := if c < |line| then Some(line[c..]) else None;
          CutThree(line, a, b, c);
          Some(FieldLine(line[..a], line[a..b], line[b..c], rest))
  }

  lemma NameNoWhite(line: string, a: nat)
    requires 1 <= a <= |line| && !IsWhite(line[0]) && NoWhite(line[1..a])
    ensures NoWhite(line[..a])
  {
    assert line[..a] == [line[0]] + line[1..a];
  }

  /** The type token stops at the first whitespace that the rest group can
      start from, and on a trimmed line every whitespace can. */
  lemma TypeNoWhite(line: string, b0: nat, c: nat)
    requires b0 < |line| && IsTrimmed(line) && !IsWhite(line[b0])
    requires c == TypeEnd(line, b0 + 1)
    ensures NoWhite(line[b0..c])
  {
    forall i | 0 <= i < c - b0 ensures !IsWhite(line[b0..c][i]) {
      var p := b0 + i;
      assert line[b0..c][i] == line[p];
      if p > b0 && p + 1 < |line| {
        assert !RestStartsAt(line, p);
      }
    }
  }

  lemma RestShifts(line: string, c: nat)
    requires RestStartsAt(line, c)
    ensures RestStartsAt(line[c..], 0)
  {
    assert line[c..][0] == line[c];
    assert line[c..][1] == line[c + 1];
    if c + 2 < |line| { assert line[c..][2] == line[c + 2]; }
  }

  /** The groups when the whitespace run stops before the end of the line. */
  lemma SplitFieldLineParts(line: string, a: nat, b0: nat, c: nat)
    requires |line| >= 2 && a == NextWhite(line, 1) && a < |line|
    requires b0 == WhiteRunEnd(line, a) && b0 < |line| && c == TypeEnd(line, b0 + 1)
    ensures SplitFieldLine(line)
      == Some(FieldLine(line[..a], line[a..b0], line[b0..c], if c < |line| then Some(line[c..]) else None))
  {
  }

  /** On a normalised (trimmed, non-empty) line the regex fails exactly when
      the line holds no whitespace; otherwise the name and the type token
      are whitespace-free and the rest, when present, starts with whitespace
      or with a colon and whitespace. */
  lemma {:induction false} SplitTrimmedFieldLine(line: string)
    requires line != [] && IsTrimmed(line)
    ensures SplitFieldLine(line).None? <==> NoWhite(line)
    ensures SplitFieldLine(line).Some? ==> var f := SplitFieldLine(line).value;
      && NoWhite(f.name) && NoWhite(f.typeToken)
      && (f.rest.Some? ==> RestStartsAt(f.rest.value, 0))
  {
    if |line| >= 2 {
      var a := NextWhite(line, 1);
      if a < |line| {
        assert !NoWhite(line) by { assert IsWhite(line[a]); }
        var b0 := WhiteRunEnd(line, a);
        assert b0 < |line|;
        var c := TypeEnd(line, b0 + 1);
        SplitFieldLineParts(line, a, b0, c);
        TypeNoWhite(line, b0, c);
        NameNoWhite(line, a);
        if c < |line| {
          RestShifts(line, c);
        }
      } else {
        NameNoWhite(line, |line|);
        assert line[..|line|] == line;
      }
    } else {
      assert NoWhite(line) by { assert |line| == 1; }
    }
  }

  // -------------------------------------------------------- the @ token

  /** `@[\w.]` starts at `p`: an `@` followed by a name character. */
  predicate IsAttrStart(s: string, p: nat) {
    p + 1 < |s| && s[p] == '@' && IsWordOrDot(s[p + 1])
  }

  /** `s[q..e]` matches `\([^@]+\)`: a `(`, at least one character other
      than `@`, then a `)`. */
  predicate ClosesGroup(s: string, q: nat, e: nat) {
    q + 3 <= e <= |s| && s[q] == '(' && s[e - 1] == ')' && forall i :: q < i < e - 1 ==> s[i] != '@'
  }

  /** The first index from `from` on that starts `@[\w.]`, or `|s|`. */
  function NextAttrStart(s: string, from: nat): (r: nat)
    requires from <= |s|
    ensures from <= r <= |s|
    ensures r < |s| ==> IsAttrStart(s, r)
    ensures forall i :: from <= i < r ==> !IsAttrStart(s, i)
    decreases |s| - from
  {
    if from == |s| then from
    else if s[from] == '@' && from + 1 < |s| && IsWordOrDot(s[from + 1]) then from
    else NextAttrStart(s, from + 1)
  }

  /** The end of the `[\w.]` run that starts at `from`. */
  function WordRunEnd(s: string, from: nat): (r: nat)
    requires from <= |s|
    ensures from <= r <= |s|
    ensures forall i :: from <= i < r ==> IsWordOrDot(s[i])
    ensures r == |s| || !IsWordOrDot(s[r])
    decreases |s| - from
  {
    if from == |s| || !IsWordOrDot(s[from]) then from else WordRunEnd(s, from + 1)
  }

  /** The first `@` at or after `from`, or `|s|`. */
  function NextAt(s: string, from: nat): (r: nat)
    requires from <= |s|
    ensures from <= r <= |s|
    ensures forall i :: from <= i < r ==> s[i] != '@'
    ensures r < |s| ==> s[r] == '@'
    decreases |s| - from
  {
    if from == |s| || s[from] == '@' then from else NextAt(s, from + 1)
  }

  /** The last `)` in `s[lo..hi]`. */
  function LastClose(s: string, lo: nat, hi: nat): (r: Option<nat>)
    requires hi <= |s|
    ensures r.Some? ==> lo <= r.value < hi && s[r.value] == ')'
    ensures r.Some? ==> forall i :: r.value < i < hi ==> s[i] != ')'
    ensures r.None? ==> forall i :: lo <= i < hi ==> s[i] != ')'
    decreases hi
  {
    if hi <= lo then None
    else if s[hi - 1] == ')' then Some(hi - 1)
    else LastClose(s, lo, hi - 1)
  }

  predicate IsAttrChar(c: char) {
    c != '@'
  }

  /** The end of the optional group `(?:\([^@]+\))?` at `q`: the longest
      match, or `q` when none matches. */
  function GroupEnd(s: string, q: nat): (e: nat)
    requires q <= |s|
    ensures q <= e <= |s|
    ensures forall i :: q <= i < e ==> s[i] != '@'
    ensures e == q ==> forall k: nat :: !ClosesGroup(s, q, k)
    ensures e != q ==> ClosesGroup(s, q, e) && forall k: nat :: ClosesGroup(s, q, k) ==> k <= e
  {
    if q < |s| && s[q] == '(' then
      var next := NextAt(s, q + 1);
      match LastClose(s, q + 2, next)
      case Some(c) =>
        GroupFound(s, q, next, c);
        c + 1
      case None =>
        GroupMissing(s, q, next);
        q
    else
      q
  }

  /** The first match of `/@[\w.]+(?:\([^@]+\))?/` in `s`. There is one
      exactly when some index starts `@[\w.]`. It starts at the leftmost
      such index, takes the whole run of name characters, then the longest
      `([^@]+)` group that follows, or none when no group matches there. */
  function FirstAttr(s: string): (r: Option<string>)
    ensures r.None? <==> forall p: nat :: !IsAttrStart(s, p)
    ensures r.Some? ==> var t := r.value;
      && |t| >= 2 && t[0] == '@' && IsWordOrDot(t[1])
      && (forall i :: 1 <= i < |t| ==> IsAttrChar(t[i]))
    ensures r.Some? ==>
      var p := NextAttrStart(s, 0);
      var q := WordRunEnd(s, p + 1);
      && p < |s| && p + |r.value| == GroupEnd(s, q) && s[p..GroupEnd(s, q)] == r.value
  {
    var p := NextAttrStart(s, 0);
    if p == |s| then None
    else
      assert IsAttrStart(s, p);
      var e := GroupEnd(s, WordRunEnd(s, p + 1));
      AttrSlice(s, p, e);
      Some(s[p..e])
  }

  /** A group that could end at `k` lies before the next `@`. */
  lemma GroupBeforeAt(s: string, q: nat, next: nat, k: nat)
    requires q < |s| && next == NextAt(s, q + 1)
    requires ClosesGroup(s, q, k)
    ensures k - 1 < next
  {
  }

  /** With a `)` found before the next `@`, the group runs to the last one. */
  lemma GroupFound(s: string, q: nat, next: nat, c: nat)
    requires q < |s| && s[q] == '(' && next == NextAt(s, q + 1)
    requires LastClose(s, q + 2, next) == Some(c)
    ensures ClosesGroup(s, q, c + 1)
    ensures forall i :: q <= i < c + 1 ==> s[i] != '@'
    ensures forall k: nat :: ClosesGroup(s, q, k) ==> k <= c + 1
  {
    forall k: nat | ClosesGroup(s, q, k) ensures k <= c + 1 {
      GroupBeforeAt(s, q, next, k);
    }
  }

  /** Without a `)` before the next `@`, no group matches. */
  lemma GroupMissing(s: string, q: nat, next: nat)
    requires q < |s| && next == NextAt(s, q + 1)
    requires LastClose(s, q + 2, next).None?
    ensures forall k: nat :: !ClosesGroup(s, q, k)
  {
    forall k: nat | ClosesGroup(s, q, k) ensures false {
      GroupBeforeAt(s, q, next, k);
    }
  }

  lemma AttrSlice(s: string, p: nat, q: nat)
    requires p < q <= |s| && forall i :: p + 1 <= i < q ==> IsAttrChar(s[i])
    ensures forall i :: 1 <= i < q - p ==> IsAttrChar(s[p..q][i])
  {
    forall i | 1 <= i < q - p ensures IsAttrChar(s[p..q][i]) {
      assert s[p..q][i] == s[p + i];
    }
  }

  /** The text `exec` scans: the rest of the line, or the JavaScript value
      `undefined` read as the text `"undefined"`. */
  function ScannedText(rest: Option<string>): string {
    if rest.Some? then rest.value else "undefined"
  }

  /** `for (const match of regex.exec(rest) ?? [])`: `exec` is called once,
      so the loop sees at most the first token. */
  function AttrTokens(rest: Option<string>): (r: seq<string>)
    ensures |r| <= 1
  {
    match FirstAttr(ScannedText(rest))
    case None => []
    case Some(t) => [t]
  }

  /** No token exactly when the scanned text holds no `@[\w.]` start;
      otherwise the one token is the first match. */
  lemma AttrTokensIff(rest: Option<string>)
    ensures AttrTokens(rest) == [] <==> forall p: nat :: !IsAttrStart(ScannedText(rest), p)
    ensures AttrTokens(rest) != [] ==> AttrTokens(rest) == [FirstAttr(ScannedText(rest)).value]
  {
  }

  lemma UndefinedHasNoToken()
    ensures FirstAttr("undefined") == None
  {
    assert NextAttrStart("undefined", 0) == 9;
  }

  /** Of two attributes on a line, only the first is seen. */
  lemma OnlyFirstToken()
    ensures AttrTokens(Some("@id @default(now())")) == ["@id"]
  {
    var s := "@id @default(now())";
    assert IsAttrStart(s, 0);
    assert NextAttrStart(s, 0) == 0;
    assert WordRunEnd(s, 1) == 3 by {
      assert !IsWordOrDot(s[3]);
      assert WordRunEnd(s, 3) == 3;
    }
    assert s[0..3] == "@id";
  }

  // ------------------------------------------------------------ @relation

  /** A relation staged for the field it names, until the block closes. */
  datatype Staged = Staged(fieldName: string, relation: RelationAssertion)

  /** An argument piece the filter keeps: it splits on `: ` into at least
      two parts, and the key is not `name`. */
  predicate KeptArg(piece: string) {
    var kv := Split(piece, ": ");
    |kv| > 1 && kv[0] != "name"
  }

  /** The key and value of a kept piece. */
  function ArgPair(piece: string): (string, string)
    requires KeptArg(piece)
  {
    var kv := Split(piece, ": ");
    (kv[0], kv[1])
  }

  /** The `key: value` pairs of the relation arguments: split on `, `, each
      split on `: `, keeping exactly the kept pieces, in order. */
  function ArgPairs(pieces: seq<string>): (r: seq<(string, string)>)
    ensures |r| <= |pieces|
    ensures forall i :: 0 <= i < |r| ==> r[i].0 != "name"
  {
    if pieces == [] then []
    else (if KeptArg(pieces[0]) then [ArgPair(pieces[0])] else []) + ArgPairs(pieces[1..])
  }

  /** Every kept piece has its pair in the result, so nothing is kept
      exactly when no piece is. */
  lemma {:induction false} ArgPairsKeepsKept(pieces: seq<string>)
    ensures forall i :: 0 <= i < |pieces| && KeptArg(pieces[i]) ==> ArgPair(pieces[i]) in ArgPairs(pieces)
    ensures ArgPairs(pieces) == [] <==> forall i :: 0 <= i < |pieces| ==> !KeptArg(pieces[i])
  {
    if pieces != [] {
      ArgPairsKeepsKept(pieces[1..]);
      forall i | 1 <= i < |pieces| && KeptArg(pieces[i]) ensures ArgPair(pieces[i]) in ArgPairs(pieces) {
        assert pieces[i] == pieces[1..][i - 1];
      }
    }
  }

  /** Every pair kept comes from a kept piece. */
  lemma {:induction false} ArgPairsFromPieces(pieces: seq<string>, x: (string, string))
    requires x in ArgPairs(pieces)
    ensures exists i :: 0 <= i < |pieces| && KeptArg(pieces[i]) && ArgPair(pieces[i]) == x
  {
    if !(KeptArg(pieces[0]) && ArgPair(pieces[0]) == x) {
      ArgPairsFromPieces(pieces[1..], x);
      var j :| 0 <= j < |pieces[1..]| && KeptArg(pieces[1..][j]) && ArgPair(pieces[1..][j]) == x;
      assert pieces[j + 1] == pieces[1..][j];
    }
  }

  /** The filter keeps the pieces' order: it distributes over concatenation. */
  lemma {:induction false} ArgPairsAppend(a: seq<string>, b: seq<string>)
    ensures ArgPairs(a + b) == ArgPairs(a) + ArgPairs(b)
  {
    if a == [] {
      assert a + b == b;
    } else {
      assert (a + b)[1..] == a[1..] + b;
      assert (a + b)[0] == a[0];
      ArgPairsAppend(a[1..], b);
      var h: seq<(string, string)> := if KeptArg(a[0]) then [ArgPair(a[0])] else [];
      AppendAssoc(h, ArgPairs(a[1..]), ArgPairs(b));
    }
  }

  /** The arguments of an `@relation(...)` token (`slice(10, -1)`). */
  function RelationArgs(tok: string): seq<(string, string)> {
    ArgPairs(Split(Slice(tok, 10, -1), ", "))
  }

  /** A value holding `[` loses its first and last character. */
  function Unbracket(v: string): string {
    if Contains(v, "[") then Slice(v, 1, -1) else v
  }

  /** `relation[k] = value` for the keys the AST declares; other keys land in
      properties that nothing reads. */
  function SetRelationKey(r: RelationAssertion, k: string, v: string): RelationAssertion {
    var value := Unbracket(v);
    if k == "fields" then r.(fields := Some(value))
    else if k == "references" then r.(references := Some(value))
    else if k == "model" then r.(model := value)
    else if k == "onDelete" then r.(onDelete := Some(value))
    else if k == "onUpdate" then r.(onUpdate := Some(value))
    else r
  }

  /** The pairs assigned in order onto `r`. */
  function RelationFrom(r: RelationAssertion, pairs: seq<(string, string)>): RelationAssertion {
    if pairs == [] then r
    else
      var last := pairs[|pairs| - 1];
      SetRelationKey(RelationFrom(r, pairs[..|pairs| - 1]), last.0, last.1)
  }

  /** The key a relation is staged under: `relation.fields`, which is the
      JavaScript property key `"undefined"` when no `fields` was given. */
  function StagingKey(r: RelationAssertion): string {
    if r.fields.Some? then r.fields.value else "undefined"
  }

  // ------------------------------------------------------------ attributes

  /** What `handleModel` works on while it reads a field line: the new
      field, the block's constraint list and the staging list. */
  datatype LineWork = LineWork(field: Field, blockAsserts: seq<Index>, staged: seq<Staged>)

  /** One attribute token of the field `name`. */
  function ApplyAttribute(tok: string, name: string, w: LineWork): Result<LineWork> {
    if tok == "@id" then
      Ok(w.(field := w.field.(assertions := w.field.assertions + [PrimaryKey])))
    else if tok == "@unique" then
      Ok(w.(blockAsserts := w.blockAsserts + [Index("unique", [IndexField(name, None, None)], None)]))
    else if StartsWith(tok, "@default") then
      Ok(w.(field := w.field.(assertions := w.field.assertions + [Default(Slice(tok, 9, -1))])))
    else if StartsWith(tok, "@db.") then
      assert Contains(tok, ".") by { assert OccursAt(tok, ".", 3); }
      Ok(w.(field := w.field.(dataType := FieldType(Split(tok, ".")[1]))))
    else if StartsWith(tok, "@relation") then
      var field := w.field.(ignore := true);
      var pairs := RelationArgs(tok);
      if |pairs| > 0 then
        var rel := RelationFrom(RelationAssertion(None, None, field.dataType.name, None, None, None), pairs);
        Ok(LineWork(field, w.blockAsserts, w.staged + [Staged(StagingKey(rel), rel)]))
      else Ok(w.(field := field))
    else Err(UnsupportedFieldAttribute)
  }

  function ApplyAttributes(tokens: seq<string>, name: string, w: LineWork): Result<LineWork> {
    if tokens == [] then Ok(w)
    else
      var w' :- ApplyAttribute(tokens[0], name, w);
      ApplyAttributes(tokens[1..], name, w')
  }

  /** `handleModel(line, current, relationFields)` on the model or view `m`
      and the staging list: the new block and the new staging list. The
      block keeps its name; its constraints and the staging list are only
      appended to; a constraint line leaves the fields and the staging list
      as they were. */
  function AfterModelLine(line: string, m: Model, staged: seq<Staged>): (r: Result<(Model, seq<Staged>)>)
    ensures r.Ok? ==> r.value.0.name == m.name
    ensures r.Ok? ==> m.assertions <= r.value.0.assertions && staged <= r.value.1
    ensures StartsWith(line, "@@") && r.Ok? ==> r.value.0.fields == m.fields && r.value.1 == staged
  {
    if StartsWith(line, "@@index") || StartsWith(line, "@@unique") then
      Ok((m.(assertions := m.assertions + [BlockIndex(line)]), staged))
    else if StartsWith(line, "@@") then Err(UnsupportedBlockAttribute)
    else FieldDeclaration(line, m, staged)
  }

  /** A line that is not a block constraint: the field regex, then the field. */
  function FieldDeclaration(line: string, m: Model, staged: seq<Staged>): Result<(Model, seq<Staged>)> {
    match SplitFieldLine(line)
    case None => Err(MalformedFieldLine)
    case Some(fl) => FieldLineResult(fl, m, staged)
  }

  /** The field line `fl` read into the block `m`: a fresh field of the
      declared type, the attribute tokens applied, the field stored unless
      it was marked `ignore`. */
  function FieldLineResult(fl: FieldLine, m: Model, staged: seq<Staged>): (r: Result<(Model, seq<Staged>)>)
    ensures r.Ok? ==> r.value.0.name == m.name
    ensures r.Ok? ==> m.assertions <= r.value.0.assertions && staged <= r.value.1
  {
    var start := LineWork(Field(FieldType(fl.typeToken), [], false), m.assertions, staged);
    var w :- ApplyAttributes(AttrTokens(fl.rest), fl.name, start);
    AttributesAppend(AttrTokens(fl.rest), fl.name, start);
    var fields := if w.field.ignore then m.fields else Put(m.fields, fl.name, w.field);
    Ok((Model(m.name, fields, w.blockAsserts), w.staged))
  }

  /** The attribute tokens `handleModel` accepts. */
  predicate KnownAttribute(tok: string) {
    || tok == "@id" || tok == "@unique" || StartsWith(tok, "@default")
    || StartsWith(tok, "@db.") || StartsWith(tok, "@relation")
  }

  /** The attributes of a field line are accepted exactly when every token
      is a known one; any other token aborts the run. */
  lemma {:induction false} AttributesOkIff(tokens: seq<string>, name: string, w: LineWork)
    ensures ApplyAttributes(tokens, name, w).Ok?
      <==> forall i :: 0 <= i < |tokens| ==> KnownAttribute(tokens[i])
  {
    if tokens != [] {
      var r := ApplyAttribute(tokens[0], name, w);
      assert r.Ok? <==> KnownAttribute(tokens[0]);
      if r.Ok? {
        AttributesOkIff(tokens[1..], name, r.value);
        assert forall i :: 1 <= i < |tokens| ==> tokens[i] == tokens[1..][i - 1];
      }
    }
  }

  /** Attributes only ever append: to the block's constraints and to the
      staging list. */
  lemma {:induction false} AttributesAppend(tokens: seq<string>, name: string, w: LineWork)
    requires ApplyAttributes(tokens, name, w).Ok?
    ensures w.blockAsserts <= ApplyAttributes(tokens, name, w).value.blockAsserts
    ensures w.staged <= ApplyAttributes(tokens, name, w).value.staged
  {
    if tokens != [] {
      var w' := ApplyAttribute(tokens[0], name, w).value;
      AttributesAppend(tokens[1..], name, w');
    }
  }

  /** A relation argument list never records `name`, and records `model`
      only when it holds a `model` key. */
  lemma {:induction false} RelationFromKeeps(r: RelationAssertion, pairs: seq<(string, string)>)
    ensures RelationFrom(r, pairs).name == r.name
    ensures (forall i :: 0 <= i < |pairs| ==> pairs[i].0 != "model") ==> RelationFrom(r, pairs).model == r.model
  {
    if pairs != [] {
      RelationFromKeeps(r, pairs[..|pairs| - 1]);
    }
  }

  /** A field line whose only attribute token is `tok`: the line's outcome
      is that token's effect on a fresh field, stored unless it is ignored. */
  lemma SingleTokenField(fl: FieldLine, m: Model, staged: seq<Staged>, tok: string)
    requires AttrTokens(fl.rest) == [tok]
    ensures var r := ApplyAttribute(tok, fl.name, LineWork(Field(FieldType(fl.typeToken), [], false), m.assertions, staged));
      FieldLineResult(fl, m, staged)
        == if r.Err? then Err(r.error)
           else Ok((Model(m.name, if r.value.field.ignore then m.fields else Put(m.fields, fl.name, r.value.field),
                          r.value.blockAsserts), r.value.staged))
  {
    var start := LineWork(Field(FieldType(fl.typeToken), [], false), m.assertions, staged);
    SingleAttribute(tok, fl.name, start);
  }

  /** A line that is not a block constraint and matches the field regex is
      read as a field declaration. */
  lemma FieldLineDispatch(line: string, fl: FieldLine, m: Model, staged: seq<Staged>)
    requires !StartsWith(line, "@@")
    requires SplitFieldLine(line) == Some(fl)
    ensures AfterModelLine(line, m, staged) == FieldLineResult(fl, m, staged)
  {
    NotConstraintLine(line);
    FieldDeclarationOf(line, fl, m, staged);
  }

  lemma NotConstraintLine(line: string)
    ensures StartsWith(line, "@@index") || StartsWith(line, "@@unique") ==> StartsWith(line, "@@")
  {
    if StartsWith(line, "@@index") {
      assert line[..2] == line[..7][..2];
    } else if StartsWith(line, "@@unique") {
      assert line[..2] == line[..8][..2];
    }
  }

  lemma FieldDeclarationOf(line: string, fl: FieldLine, m: Model, staged: seq<Staged>)
    requires SplitFieldLine(line) == Some(fl)
    ensures FieldDeclaration(line, m, staged) == FieldLineResult(fl, m, staged)
  {
  }

  /** A string that differs from `p` at a position of both does not start with `p`. */
  lemma DiffersAt(s: string, p: string, i: nat)
    requires i < |s| && i < |p| && s[i] != p[i]
    ensures !StartsWith(s, p) && s != p
  {
    if |p| <= |s| {
      assert s[..|p|][i] == s[i];
    }
  }

  lemma SingleAttribute(tok: string, name: string, w: LineWork)
    ensures ApplyAttributes([tok], name, w) == ApplyAttribute(tok, name, w)
  {
    assert [tok][1..] == [];
  }

  /** `@id` (alone) stores the field with one primaryKey assertion. */
  lemma IdField(fl: FieldLine, m: Model, staged: seq<Staged>)
    requires AttrTokens(fl.rest) == ["@id"]
    ensures FieldLineResult(fl, m, staged)
        == Ok((m.(fields := Put(m.fields, fl.name, Field(FieldType(fl.typeToken), [PrimaryKey], false))), staged))
  {
    var start := LineWork(Field(FieldType(fl.typeToken), [], false), m.assertions, staged);
    assert start.field.assertions + [PrimaryKey] == [PrimaryKey];
    assert ApplyAttribute("@id", fl.name, start)
      == Ok(start.(field := start.field.(assertions := [PrimaryKey])));
    SingleTokenField(fl, m, staged, "@id");
  }

  /** `@unique` leaves the field without assertions and appends a
      single-field unique constraint to the block. */
  lemma UniqueField(fl: FieldLine, m: Model, staged: seq<Staged>)
    requires AttrTokens(fl.rest) == ["@unique"]
    ensures FieldLineResult(fl, m, staged)
        == Ok((Model(m.name, Put(m.fields, fl.name, Field(FieldType(fl.typeToken), [], false)),
                     m.assertions + [Index("unique", [IndexField(fl.name, None, None)], None)]), staged))
  {
    SingleTokenField(fl, m, staged, "@unique");
  }

  /** `@default(E)` stores `E` verbatim as the field's one assertion. */
  lemma DefaultField(fl: FieldLine, m: Model, staged: seq<Staged>, e: string)
    requires AttrTokens(fl.rest) == ["@default(" + e + ")"]
    ensures FieldLineResult(fl, m, staged)
        == Ok((m.(fields := Put(m.fields, fl.name, Field(FieldType(fl.typeToken), [Default(e)], false))), staged))
  {
    var tok := "@default(" + e + ")";
    var start := LineWork(Field(FieldType(fl.typeToken), [], false), m.assertions, staged);
    SingleTokenField(fl, m, staged, tok);
    DefaultAttribute(e, fl.name, start);
    assert start.field.assertions + [Default(e)] == [Default(e)];
  }

  lemma DefaultAttribute(e: string, name: string, w: LineWork)
    ensures ApplyAttribute("@default(" + e + ")", name, w)
      == Ok(w.(field := w.field.(assertions := w.field.assertions + [Default(e)])))
  {
    var tok := "@default(" + e + ")";
    assert tok[..8] == "@default";
    DiffersAt(tok, "@id", 1);
    DiffersAt(tok, "@unique", 1);
    assert Slice(tok, 9, -1) == tok[9..|tok| - 1] == e;
  }

  /** `@db.T` replaces the declared type by `fieldType(T)`, cardinality
      included. */
  lemma DbField(fl: FieldLine, m: Model, staged: seq<Staged>, t: string)
    requires !Contains(t, ".")
    requires AttrTokens(fl.rest) == ["@db." + t]
    ensures FieldLineResult(fl, m, staged)
        == Ok((m.(fields := Put(m.fields, fl.name, Field(FieldType(t), [], false))), staged))
  {
    var tok := "@db." + t;
    SingleTokenField(fl, m, staged, tok);
    DbAttribute(t, fl.name, LineWork(Field(FieldType(fl.typeToken), [], false), m.assertions, staged));
  }

  lemma DbAttribute(t: string, name: string, w: LineWork)
    requires !Contains(t, ".")
    ensures ApplyAttribute("@db." + t, name, w) == Ok(w.(field := w.field.(dataType := FieldType(t))))
  {
    var tok := "@db." + t;
    assert tok[..4] == "@db.";
    DiffersAt(tok, "@default", 3);
    assert "@db." + t == "@db" + "." + t;
    DbSplit("@db", t);
  }

  lemma DbSplit(a: string, t: string)
    requires !Contains(a, ".") && !Contains(t, ".")
    ensures Split(a + "." + t, ".") == [a, t]
  {
    SplitAtChar(a, '.', t);
    assert Split(a, ".") == [a] && Split(t, ".") == [t];
  }

  /** `@relation(...)` keeps the field out of the block and stages at most
      one relation: the argument pairs assigned in order onto a relation
      whose `model` is the field's base type, which never records `name`;
      nothing is staged when no argument is kept. */
  lemma RelationField(fl: FieldLine, m: Model, staged: seq<Staged>, tok: string)
    requires AttrTokens(fl.rest) == [tok]
    requires StartsWith(tok, "@relation")
    ensures var r := FieldLineResult(fl, m, staged);
      var rel := RelationFrom(RelationAssertion(None, None, FieldType(fl.typeToken).name, None, None, None), RelationArgs(tok));
      && r.Ok? && r.value.0 == m
      && rel.name.None?
      && (if |RelationArgs(tok)| == 0 then r.value.1 == staged
          else r.value.1 == staged + [Staged(StagingKey(rel), rel)])
  {
    var start := LineWork(Field(FieldType(fl.typeToken), [], false), m.assertions, staged);
    SingleTokenField(fl, m, staged, tok);
    RelationAttribute(tok, fl.name, start);
    RelationFromKeeps(RelationAssertion(None, None, FieldType(fl.typeToken).name, None, None, None), RelationArgs(tok));
  }

  lemma RelationAttribute(tok: string, name: string, w: LineWork)
    requires StartsWith(tok, "@relation")
    ensures var rel := RelationFrom(RelationAssertion(None, None, w.field.dataType.name, None, None, None), RelationArgs(tok));
      ApplyAttribute(tok, name, w)
        == Ok(LineWork(w.field.(ignore := true), w.blockAsserts,
                       if |RelationArgs(tok)| == 0 then w.staged else w.staged + [Staged(StagingKey(rel), rel)]))
  {
    assert !StartsWith(tok, "@default") && !StartsWith(tok, "@db.") && tok != "@id" && tok != "@unique" by {
      assert tok[..9] == "@relation";
      assert tok[1] == 'r';
    }
  }

  /** Without a `model` argument, the staged relation targets the field's
      base type. */
  lemma RelationTargetsBaseType(fl: FieldLine, tok: string)
    requires forall i :: 0 <= i < |RelationArgs(tok)| ==> RelationArgs(tok)[i].0 != "model"
    ensures RelationFrom(RelationAssertion(None, None, FieldType(fl.typeToken).name, None, None, None), RelationArgs(tok)).model
      == FieldType(fl.typeToken).name
  {
    RelationFromKeeps(RelationAssertion(None, None, FieldType(fl.typeToken).name, None, None, None), RelationArgs(tok));
  }

  /** Any other token aborts the run. */
  lemma UnknownAttributeField(fl: FieldLine, m: Model, staged: seq<Staged>, tok: string)
    requires AttrTokens(fl.rest) == [tok]
    requires !KnownAttribute(tok)
    ensures FieldLineResult(fl, m, staged) == Err(UnsupportedFieldAttribute)
  {
    SingleTokenField(fl, m, staged, tok);
  }

  /** The relation an `@relation` token stages: `model` first,
      then each argument pair assigned in order. */
  method RelationOf(pairs: seq<(string, string)>, model: string) returns (rel: RelationAssertion)
    ensures rel == RelationFrom(RelationAssertion(None, None, model, None, None, None), pairs)
  {
    rel := RelationAssertion(None, None, model, None, None, None);
    ghost var rel0 := rel;
    for j := 0 to |pairs|
      invariant rel == RelationFrom(rel0, pairs[..j])
    {
      assert pairs[..j + 1][..j] == pairs[..j];
      var value := if Contains(pairs[j].1, "[") then Slice(pairs[j].1, 1, -1) else pairs[j].1;
      var k := pairs[j].0;
      if k == "fields" {
        rel := rel.(fields := Some(value));
      } else if k == "references" {
        rel := rel.(references := Some(value));
      } else if k == "model" {
        rel := rel.(model := value);
      } else if k == "onDelete" {
        rel := rel.(onDelete := Some(value));
      } else if k == "onUpdate" {
        rel := rel.(onUpdate := Some(value));
      }
    }
    assert pairs[..|pairs|] == pairs;
  }

  /** One pass of the attribute loop: the token's effect on the new field,
      the block's constraints and the staging list. */
  method AttributeStep(tok: string, name: string, field0: Field, blockAsserts0: seq<Index>, staged0: seq<Staged>)
    returns (r: Result<LineWork>)
    ensures r == ApplyAttribute(tok, name, LineWork(field0, blockAsserts0, staged0))
  {
    var field, blockAsserts, st := field0, blockAsserts0, staged0;
    if tok == "@id" {
      field := field.(assertions := field.assertions + [PrimaryKey]);
    } else if tok == "@unique" {
      blockAsserts := blockAsserts + [Index("unique", [IndexField(name, None, None)], None)];
    } else if StartsWith(tok, "@default") {
      field := field.(assertions := field.assertions + [Default(Slice(tok, 9, -1))]);
    } else if StartsWith(tok, "@db.") {
      assert OccursAt(tok, ".", 3);
      field := field.(dataType := FieldType(Split(tok, ".")[1]));
    } else if StartsWith(tok, "@relation") {
      field := field.(ignore := true);
      var pairs := RelationArgs(tok);
      if |pairs| > 0 {
        var rel := RelationOf(pairs, field.dataType.name);
        st := st + [Staged(StagingKey(rel), rel)];
      }
    } else {
      return Err(UnsupportedFieldAttribute);
    }
    return Ok(LineWork(field, blockAsserts, st));
  }

  /** `handleModel`, statement by statement: the attribute loop runs over
      what `exec` returned, the relation loop over the argument pairs. */
  method HandleModel(line: string, m: Model, staged: seq<Staged>) returns (r: Result<(Model, seq<Staged>)>)
    ensures r == AfterModelLine(line, m, staged)
  {
    if StartsWith(line, "@@index") || StartsWith(line, "@@unique") {
      var index := BlockIndexOf(line);
      return Ok((m.(assertions := m.assertions + [index]), staged));
    }
    if StartsWith(line, "@@") {
      return Err(UnsupportedBlockAttribute);
    }
    var split := SplitFieldLine(line);
    if split.None? {
      return Err(MalformedFieldLine);
    }
    var fl := split.value;
    var field := Field(FieldType(fl.typeToken), [], false);
    var blockAsserts := m.assertions;
    var st := staged;
    var tokens := AttrTokens(fl.rest);
    ghost var start := LineWork(field, blockAsserts, st);
    for i := 0 to |tokens|
      invariant ApplyAttributes(tokens, fl.name, start)
        == ApplyAttributes(tokens[i..], fl.name, LineWork(field, blockAsserts, st))
    {
      assert tokens[i..][0] == tokens[i] && tokens[i..][1..] == tokens[i + 1..];
      var step := AttributeStep(tokens[i], fl.name, field, blockAsserts, st);
      if step.Err? {
        return Err(step.error);
      }
      field, blockAsserts, st := step.value.field, step.value.blockAsserts, step.value.staged;
    }
    assert tokens[|tokens|..] == [];
    var fields := if field.ignore then m.fields else Put(m.fields, fl.name, field);
    return Ok((Model(m.name, fields, blockAsserts), st));
  }
}
