/** Block-level constraints of a model or view: `@@index(...)` and
    `@@unique(...)` lines and their field entries (prisma-to-ast.ts,
    `handleModel` lines 120-138 and `indexField`). */
module IndexParser {
  import opened Wrappers
  import opened JsString
  import opened Ast

  /** The value an `ops` modifier stores: the result of
      `/raw\("(.+?)"\)|(.+)/.exec(v)`, first group else second group.
      At index 0 either `raw("` starts the first alternative, which ends at
      the first `")` after at least one character, or the second alternative
      takes the whole text; an empty text matches nowhere. An unwrapped
      value is the text after `raw("` up to the first `")` that follows at
      least one character. */
  function OpsValue(v: string): (r: Option<string>)
    ensures r.None? <==> v == []
    ensures r.Some? ==> r.value != []
    ensures r.Some? && r.value != v ==>
      && StartsWith(v, "raw(\"") && OccursAt(v, "\")", 5 + |r.value|)
      && v[5..5 + |r.value|] == r.value
      && forall p :: 6 <= p < 5 + |r.value| ==> !OccursAt(v, "\")", p)
  {
    if v == [] then None
    else if StartsWith(v, "raw(\"") && |v| >= 6 && IndexOf(v[6..], "\")") >= 0 then
      RawCapture(v);
      Some(v[5..6 + IndexOf(v[6..], "\")")])
    else Some(v)
  }

  /** The first `")` at or after index 6, found by searching `v[6..]`. */
  lemma RawCapture(v: string)
    requires |v| >= 6 && IndexOf(v[6..], "\")") >= 0
    ensures var j := 6 + IndexOf(v[6..], "\")");
      OccursAt(v, "\")", j) && forall p :: 6 <= p < j ==> !OccursAt(v, "\")", p)
  {
    var j := 6 + IndexOf(v[6..], "\")");
    assert v[6..][j - 6..j - 4] == v[j..j + 2];
    forall p | 6 <= p < j ensures !OccursAt(v, "\")", p) {
      assert !OccursAt(v[6..], "\")", p - 6);
      if p + 2 <= |v| {
        assert v[6..][p - 6..p - 4] == v[p..p + 2];
      }
    }
  }

  /** `raw("x")` is unwrapped to `x`, as long as `x` holds no `")`. */
  lemma {:induction false} OpsUnwrapsRaw(x: string)
    requires x != [] && !Contains(x, "\")")
    ensures OpsValue("raw(\"" + x + "\")") == Some(x)
  {
    var v := "raw(\"" + x + "\")";
    assert v[6..] == x[1..] + "\")";
    FirstCloseQuote(x);
    assert StartsWith(v, "raw(\"");
    assert v[5..5 + |x|] == x;
  }

  lemma {:induction false} FirstCloseQuote(x: string)
    requires x != [] && !Contains(x, "\")")
    ensures IndexOf(x[1..] + "\")", "\")") == |x| - 1
  {
    var w := x[1..] + "\")";
    var k := |x| - 1;
    assert w[k..k + 2] == "\")";
    forall j | 0 <= j < k ensures !OccursAt(w, "\")", j) {
      if j + 2 <= k {
        assert w[j..j + 2] == x[j + 1..j + 3];
        assert !OccursAt(x, "\")", j + 1);
      } else {
        assert w[j + 1] == '"';
        assert w[j..j + 2][1] == w[j + 1];
      }
    }
    IndexOfIsLeast(w, "\")", k);
  }

  /** A value that does not begin with `raw("` is kept whole. */
  lemma OpsKeepsPlainValue(v: string)
    requires v != [] && !StartsWith(v, "raw(\"")
    ensures OpsValue(v) == Some(v)
  {
  }

  /** One modifier `k: v` of an index entry. `sort` is kept only for `Asc`
      and `Desc`; `ops` is unwrapped (with no value, JavaScript's `exec`
      reads the text `undefined`); every other modifier is skipped. */
  function ApplyModifier(r: IndexField, mod: string): (r': IndexField)
    ensures r'.name == r.name
    ensures IsSortModifier(mod, Asc) ==> r'.sort == Some(Asc)
    ensures IsSortModifier(mod, Desc) ==> r'.sort == Some(Desc)
    ensures !IsSortModifier(mod, Asc) && !IsSortModifier(mod, Desc) ==> r'.sort == r.sort
    ensures Split(mod, ": ")[0] != "ops" ==> r'.ops == r.ops
    ensures mod == "ops" ==> r'.ops == Some("undefined")
  {
    BareOps();
    var kv := Split(mod, ": ");
    var k := kv[0];
    var v := if |kv| > 1 then Some(kv[1]) else None;
    if k == "sort" && v == Some("Asc") then r.(sort := Some(Asc))
    else if k == "sort" && v == Some("Desc") then r.(sort := Some(Desc))
    else if k == "ops" then r.(ops := OpsValue(if v.Some? then v.value else "undefined"))
    else r
  }

  /** `ops` alone holds no `: `, so it is one piece with no value. */
  lemma BareOps()
    ensures Split("ops", ": ") == ["ops"]
  {
    forall i ensures !OccursAt("ops", ": ", i) {
      if 0 <= i <= 1 {
        assert "ops"[i..i + 2][0] == "ops"[i] != ':';
      }
    }
  }

  /** The modifiers applied in order, the last one of a kind winning. */
  function ApplyModifiers(r: IndexField, mods: seq<string>): IndexField {
    if mods == [] then r
    else ApplyModifier(ApplyModifiers(r, mods[..|mods| - 1]), mods[|mods| - 1])
  }

  lemma ApplyModifiersStep(r: IndexField, mods: seq<string>, i: nat)
    requires i < |mods|
    ensures ApplyModifiers(r, mods[..i + 1]) == ApplyModifier(ApplyModifiers(r, mods[..i]), mods[i])
  {
    assert mods[..i + 1][..i] == mods[..i];
  }

  /** The modifier text of an entry `name(m1, m2)`: everything after the
      first `(` without its last character. */
  function ModifierList(f: string): seq<string>
    requires Contains(f, "(")
  {
    Split(Slice(f[IndexOf(f, "(") + 1..], 0, -1), ", ")
  }

  /** `indexField(f)`: a bare name, or a name with a modifier group. The
      entry's name is the text before the first `(` (the whole entry when
      there is none), and it holds no `(`; a bare name has no modifiers. */
  function ParsedIndexField(f: string): (r: IndexField)
    ensures r.name == if Contains(f, "(") then f[..IndexOf(f, "(")] else f
    ensures !Contains(r.name, "(")
    ensures !Contains(f, "(") ==> r.sort.None? && r.ops.None?
  {
    if !Contains(f, "(") then IndexField(f, None, None)
    else
      NameSurvivesModifiers(IndexField(f[..IndexOf(f, "(")], None, None), ModifierList(f));
      FirstPieceFree(f, "(");
      ApplyModifiers(IndexField(f[..IndexOf(f, "(")], None, None), ModifierList(f))
  }

  /** `sort` is one of the word pair of the modifier `k: v`. */
  predicate IsSortModifier(mod: string, s: SortOrder) {
    var kv := Split(mod, ": ");
    |kv| > 1 && kv[0] == "sort" && kv[1] == (if s == Asc then "Asc" else "Desc")
  }

  /** No modifier changes the entry's name. */
  lemma {:induction false} NameSurvivesModifiers(r: IndexField, mods: seq<string>)
    ensures ApplyModifiers(r, mods).name == r.name
    decreases |mods|
  {
    if mods != [] {
      NameSurvivesModifiers(r, mods[..|mods| - 1]);
    }
  }

  /** A sort direction is kept only when some modifier reads exactly
      `sort: Asc` or `sort: Desc`; nothing else can set it. */
  lemma {:induction false} SortComesFromModifier(r: IndexField, mods: seq<string>)
    requires r.sort.None?
    ensures ApplyModifiers(r, mods).sort.Some? ==>
      exists i :: 0 <= i < |mods| && IsSortModifier(mods[i], ApplyModifiers(r, mods).sort.value)
    decreases |mods|
  {
    if mods != [] {
      var init := mods[..|mods| - 1];
      var last := mods[|mods| - 1];
      var before := ApplyModifiers(r, init);
      SortComesFromModifier(r, init);
      if ApplyModifiers(r, mods).sort != before.sort {
        assert IsSortModifier(mods[|mods| - 1], ApplyModifiers(r, mods).sort.value);
      } else if before.sort.Some? {
        var i :| 0 <= i < |init| && IsSortModifier(init[i], before.sort.value);
        assert mods[i] == init[i];
      }
    }
  }

  /** A `sort: Asc` or `sort: Desc` modifier sets that direction, whatever
      came before. */
  lemma SortSetByModifier(r: IndexField, mods: seq<string>, mod: string, s: SortOrder)
    requires IsSortModifier(mod, s)
    ensures ApplyModifiers(r, mods + [mod]).sort == Some(s)
  {
    assert (mods + [mod])[..|mods|] == mods;
  }

  /** A modifier that is not a valid `sort` leaves the direction as it was,
      so the last valid `sort` modifier decides it. */
  lemma SortKeptByOthers(r: IndexField, mods: seq<string>, mod: string)
    requires !IsSortModifier(mod, Asc) && !IsSortModifier(mod, Desc)
    ensures ApplyModifiers(r, mods + [mod]).sort == ApplyModifiers(r, mods).sort
  {
    assert (mods + [mod])[..|mods|] == mods;
  }

  /** A modifier that is neither a valid `sort` nor an `ops` changes nothing:
      unknown modifiers are skipped, not fatal. */
  lemma UnknownModifierSkipped(r: IndexField, mods: seq<string>, mod: string)
    requires var kv := Split(mod, ": ");
      kv[0] != "ops" && !IsSortModifier(mod, Asc) && !IsSortModifier(mod, Desc)
    ensures ApplyModifiers(r, mods + [mod]) == ApplyModifiers(r, mods)
  {
    assert (mods + [mod])[..|mods|] == mods;
  }

  /** `indexField(f)`, looping over the modifiers as the source does. */
  method IndexFieldOf(f: string) returns (r: IndexField)
    ensures r == ParsedIndexField(f)
  {
    if !Contains(f, "(") {
      return IndexField(f, None, None);
    }
    var name := f[..IndexOf(f, "(")];
    var mods := ModifierList(f);
    r := IndexField(name, None, None);
    for i := 0 to |mods|
      invariant r == ApplyModifiers(IndexField(name, None, None), mods[..i])
    {
      ApplyModifiersStep(IndexField(name, None, None), mods, i);
      r := ModifierStep(r, mods[i]);
    }
    assert mods[..|mods|] == mods;
  }

  /** One pass of the modifier loop: a valid `sort`, then `ops`, each
      ending the pass; anything else is reported and skipped. */
  method ModifierStep(r0: IndexField, mod: string) returns (r: IndexField)
    ensures r == ApplyModifier(r0, mod)
  {
    r := r0;
    var kv := Split(mod, ": ");
    var k := kv[0];
    var v := if |kv| > 1 then Some(kv[1]) else None;
    if k == "sort" && (v == Some("Asc") || v == Some("Desc")) {
      r := r.(sort := if v == Some("Asc") then Some(Asc) else Some(Desc));
      return;
    }
    if k == "ops" {
      r := r.(ops := OpsValue(if v.Some? then v.value else "undefined"));
      return;
    }
    // an unrecognised modifier is reported and skipped
  }

  /** `using` from a trailing `type: X` in the argument text
      (`/type: (.+?)$/`): everything after the first `type: `, if anything. */
  function UsingClause(content: string): (r: Option<string>)
    ensures r.None? <==> forall p :: 0 <= p && p + 6 < |content| ==> !OccursAt(content, "type: ", p)
    ensures r.Some? ==>
      && r.value != [] && |r.value| + 6 <= |content| && r.value == content[|content| - |r.value|..]
      && OccursAt(content, "type: ", |content| - |r.value| - 6)
      && forall p :: 0 <= p < |content| - |r.value| - 6 ==> !OccursAt(content, "type: ", p)
  {
    var p := IndexOf(content, "type: ");
    if p >= 0 && p + 6 < |content| then Some(content[p + 6..]) else None
  }

  /** The block-index branch of `handleModel`, with the entries mapped through
      `indexField` one by one (`elements.map(indexField)`). */
  method BlockIndexOf(line: string) returns (index: Index)
    ensures index == BlockIndex(line)
  {
    var kind := Slice(line, 2, IndexOf(line, "("));
    var content := Slice(line, |kind| + 3, -1);
    var fields: seq<IndexField>;
    if StartsWith(content, "[") {
      fields := IndexFieldsOf(ListEntries(content));
    } else {
      var entry := IndexFieldOf(content);
      fields := [entry];
    }
    index := Index(kind, fields, UsingClause(content));
  }

  /** `elements.map(indexField)`. */
  method IndexFieldsOf(elements: seq<string>) returns (fields: seq<IndexField>)
    ensures fields == ParsedIndexFields(elements)
  {
    fields := [];
    for i := 0 to |elements|
      invariant fields == ParsedIndexFields(elements[..i])
    {
      var entry := IndexFieldOf(elements[i]);
      ParsedIndexFieldsSnoc(elements, i);
      fields := fields + [entry];
    }
    assert elements[..|elements|] == elements;
  }

  lemma ParsedIndexFieldsSnoc(entries: seq<string>, i: nat)
    requires i < |entries|
    ensures ParsedIndexFields(entries[..i + 1]) == ParsedIndexFields(entries[..i]) + [ParsedIndexField(entries[i])]
  {
    assert entries[..i + 1] == entries[..i] + [entries[i]];
    ParsedIndexFieldsAppend(entries[..i], entries[i]);
  }

  lemma {:induction false} ParsedIndexFieldsAppend(entries: seq<string>, e: string)
    ensures ParsedIndexFields(entries + [e]) == ParsedIndexFields(entries) + [ParsedIndexField(e)]
  {
    if entries == [] {
      assert entries + [e] == [e];
    } else {
      assert (entries + [e])[1..] == entries[1..] + [e];
      ParsedIndexFieldsAppend(entries[1..], e);
    }
  }

  /** The entries of `[a, b(...)]`: the text up to the first `]`, split on `, `. */
  function ListEntries(content: string): seq<string> {
    Split(Slice(content, 1, IndexOf(content, "]")), ", ")
  }

  function ParsedIndexFields(entries: seq<string>): (r: seq<IndexField>)
    ensures |r| == |entries|
    ensures forall i :: 0 <= i < |entries| ==> r[i] == ParsedIndexField(entries[i])
  {
    if entries == [] then [] else [ParsedIndexField(entries[0])] + ParsedIndexFields(entries[1..])
  }

  /** The Index an `@@index(...)` or `@@unique(...)` line appends: its kind is
      the text between `@@` and the first `(`, its argument text runs from
      there to the line's last character. */
  function BlockIndex(line: string): (r: Index)
    ensures r.fields != []
    ensures r.using.Some? ==> r.using.value != []
  {
    var kind := Slice(line, 2, IndexOf(line, "("));
    var content := Slice(line, |kind| + 3, -1);
    var fields :=
      if StartsWith(content, "[") then ParsedIndexFields(ListEntries(content))
      else [ParsedIndexField(content)];
    Index(kind, fields, UsingClause(content))
  }

  /** The argument text of a constraint line `@@kind(content)`. */
  lemma {:induction false} BlockIndexParts(kind: string, content: string)
    requires !Contains(kind, "(")
    ensures var line := "@@" + kind + "(" + content + ")";
      && BlockIndex(line).kind == kind
      && BlockIndex(line).using == UsingClause(content)
      && BlockIndex(line).fields ==
           if StartsWith(content, "[") then ParsedIndexFields(ListEntries(content))
           else [ParsedIndexField(content)]
  {
    var line := "@@" + kind + "(" + content + ")";
    var k := |kind| + 2;
    assert OccursAt(line, "(", k) by { assert line[k..k + 1] == "("; }
    forall j | 0 <= j < k ensures !OccursAt(line, "(", j) {
      if OccursAt(line, "(", j) {
        OccursAtChar(line, '(', j);
        if j >= 2 {
          assert kind[j - 2] == line[j];
          OccursAtChar(kind, '(', j - 2);
        }
      }
    }
    IndexOfIsLeast(line, "(", k);
    assert Slice(line, 2, k) == kind;
    assert Slice(line, |kind| + 3, -1) == content;
  }

  /** A bracketed list gives one entry per `, `-separated element, in order. */
  lemma {:induction false} BracketedListEntries(inner: string, tail: string)
    requires !Contains(inner, "]")
    ensures ListEntries("[" + inner + "]" + tail) == Split(inner, ", ")
  {
    var c := "[" + inner + "]" + tail;
    var k := |inner| + 1;
    assert OccursAt(c, "]", k) by { assert c[k..k + 1] == "]"; }
    forall j | 0 <= j < k ensures !OccursAt(c, "]", j) {
      if OccursAt(c, "]", j) {
        OccursAtChar(c, ']', j);
        assert j >= 1;
        assert inner[j - 1] == c[j];
        OccursAtChar(inner, ']', j - 1);
      }
    }
    IndexOfIsLeast(c, "]", k);
    assert Slice(c, 1, k) == inner;
  }
}
