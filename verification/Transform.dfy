/**
 The transform engine: path expressions, template bodies, and the pipeline that folds its steps
 over a payload.
 */
module Transform {
  import opened Common
  import Template

  datatype Json =
    | Null
    | Bool(b: bool)
    | Int(n: int)
    | Float(f: real)
    | Str(s: string)
    | List(items: seq<Json>)
    | Obj(fields: map<string, Json>)

  /** The libraries the engine calls, left uninterpreted; F stands for Python's floats. */
  datatype Library<!F> = Library(
    str: Json -> string,
    strip: string -> string,
    toFloat: string -> Option<F>,
    isZero: F -> bool,
    quotient: (Json, F) -> Option<string>,
    search: (string, Json) -> Option<Json>)

  const MAX_EXPRESSION_LEN: nat := 2048

  // ---------------------------------------------------------------- expressions

  function Without(s: string, c: char): string {
    if s == "" then "" else (if s[0] == c then "" else [s[0]]) + Without(s[1..], c)
  }

  /** s.split(sep): always at least one part. */
  function Split(s: string, sep: char): (parts: seq<string>)
    ensures parts != []
  {
    if s == "" then [""]
    else
      var rest := Split(s[1..], sep);
      if s[0] == sep then [""] + rest else [[s[0]] + rest[0]] + rest[1..]
  }

  function Join(parts: seq<string>, sep: char): string
    requires parts != []
  {
    if |parts| == 1 then parts[0] else parts[0] + [sep] + Join(parts[1..], sep)
  }

  /** Splitting loses nothing, and leaves no separator in any part. */
  lemma {:induction false} SplitJoin(s: string, sep: char)
    ensures Join(Split(s, sep), sep) == s
    ensures forall i :: 0 <= i < |Split(s, sep)| ==> sep !in Split(s, sep)[i]
  {
    if s != "" {
      SplitJoin(s[1..], sep);
      var rest := Split(s[1..], sep);
      assert s == [s[0]] + s[1..];
      if s[0] == sep {
        assert ([""] + rest)[1..] == rest;
        assert Join([""] + rest, sep) == "" + [sep] + Join(rest, sep);
      } else {
        var parts := [[s[0]] + rest[0]] + rest[1..];
        assert parts[1..] == rest[1..];
        if |rest| > 1 {
          assert Join(parts, sep) == ([s[0]] + rest[0]) + [sep] + Join(rest[1..], sep);
          assert ([s[0]] + rest[0]) + [sep] + Join(rest[1..], sep) == [s[0]] + (rest[0] + [sep] + Join(rest[1..], sep));
        }
      }
    }
  }

  ghost predicate Free(parts: seq<string>, sep: char) {
    parts != [] && forall i :: 0 <= i < |parts| ==> sep !in parts[i]
  }

  lemma {:induction false} SplitOfWord(word: string, sep: char)
    requires sep !in word
    ensures Split(word, sep) == [word]
  {
    if word != "" {
      SplitOfWord(word[1..], sep);
      assert word == [word[0]] + word[1..];
    }
  }

  lemma {:induction false} SplitAfterWord(word: string, rest: string, sep: char)
    requires sep !in word
    ensures Split(word + [sep] + rest, sep) == [word] + Split(rest, sep)
  {
    var t := word + [sep] + rest;
    if word == "" {
      assert t[1..] == rest;
    } else {
      SplitAfterWord(word[1..], rest, sep);
      assert t[1..] == word[1..] + [sep] + rest;
      assert word == [word[0]] + word[1..];
    }
  }

  /** Splitting undoes joining: the parts are the only ones without a separator that make up the text. */
  lemma {:induction false} JoinSplit(parts: seq<string>, sep: char)
    requires Free(parts, sep)
    ensures Split(Join(parts, sep), sep) == parts
  {
    if |parts| == 1 {
      SplitOfWord(parts[0], sep);
    } else {
      JoinSplit(parts[1..], sep);
      SplitAfterWord(parts[0], Join(parts[1..], sep), sep);
    }
  }

  function Concat(words: seq<string>): string {
    if words == [] then "" else words[0] + Concat(words[1..])
  }

  lemma {:induction false} WithoutWord(word: string, c: char)
    requires c !in word
    ensures Without(word, c) == word
  {
    if word != "" {
      WithoutWord(word[1..], c);
    }
  }

  lemma {:induction false} WithoutAfterWord(word: string, rest: string, c: char)
    requires c !in word
    ensures Without(word + [c] + rest, c) == word + Without(rest, c)
  {
    var t := word + [c] + rest;
    if word == "" {
      assert t[1..] == rest;
    } else {
      WithoutAfterWord(word[1..], rest, c);
      assert t[1..] == word[1..] + [c] + rest;
      assert word == [word[0]] + word[1..];
    }
  }

  /** Removing the separator from joined words puts the words next to each other. */
  lemma {:induction false} WithoutJoins(words: seq<string>, c: char)
    requires Free(words, c)
    ensures Without(Join(words, c), c) == Concat(words)
  {
    if |words| == 1 {
      WithoutWord(words[0], c);
      assert Concat(words) == words[0] + "";
    } else {
      WithoutJoins(words[1..], c);
      WithoutAfterWord(words[0], Join(words[1..], c), c);
    }
  }

  /** dict.get(part, ""). */
  function Get(j: Json, part: string): Json
    requires j.Obj?
  {
    if part in j.fields then j.fields[part] else Str("")
  }

  /** Where the walk along a path ends, and whether it used up the whole path. */
  function Lookup(path: seq<string>, j: Json): (Json, bool) {
    if path == [] then (j, true)
    else if j.Obj? then Lookup(path[1..], Get(j, path[0]))
    else (j, false)
  }

  /** A chain of values in which each is the field of the one before, as far as there are objects. */
  ghost predicate IsWalk(chain: seq<Json>, path: seq<string>, j: Json) {
    && 0 < |chain| <= |path| + 1 && chain[0] == j
    && (forall i :: 0 <= i < |chain| - 1 ==>
          && chain[i].Obj?
          && chain[i + 1] == if path[i] in chain[i].fields then chain[i].fields[path[i]] else Str(""))
    && (|chain| == |path| + 1 || !chain[|chain| - 1].Obj?)
  }

  lemma {:induction false} LookupFollowsWalk(chain: seq<Json>, path: seq<string>, j: Json)
    requires IsWalk(chain, path, j)
    ensures Lookup(path, j) == (chain[|chain| - 1], |chain| == |path| + 1)
    decreases |path|
  {
    if |chain| > 1 {
      var rest := chain[1..];
      forall i | 0 <= i < |rest| - 1
        ensures rest[i].Obj?
        ensures rest[i + 1] == if path[1..][i] in rest[i].fields then rest[i].fields[path[1..][i]] else Str("")
      {
        assert chain[i + 1].Obj? && chain[i + 1 + 1] == Get(chain[i + 1], path[i + 1]);
      }
      LookupFollowsWalk(rest, path[1..], chain[1]);
    }
  }

  predicate IsNumber(j: Json) { j.Bool? || j.Int? || j.Float? }

  /** The value of an expression as text; None when the division raises an uncaught error. */
  function Eval<F>(lib: Library<F>, expr: string, payload: Json): Option<string> {
    var parts := Split(Without(expr, ' '), '/');
    var (value, complete) := Lookup(Split(parts[0], '.'), payload);
    if complete && |parts| > 1 && IsNumber(value) then
      var divisor := lib.toFloat(parts[1]);
      if divisor.None? then Some(lib.str(value))
      else if lib.isZero(divisor.value) then Some("0")
      else lib.quotient(value, divisor.value)
    else Some(lib.str(value))
  }

  /** The words between the blanks of an expression, the parts between its slashes, and the names before the first. */
  ghost predicate Reads(expr: string, words: seq<string>, parts: seq<string>, path: seq<string>) {
    && Free(words, ' ') && Join(words, ' ') == expr
    && Free(parts, '/') && Join(parts, '/') == Concat(words)
    && Free(path, '.') && Join(path, '.') == parts[0]
  }

  /**
   The quotient comes out exactly when the walk along the names uses them all up and ends in a
   number, and the part after the first slash is a number other than zero; for zero it is "0", and in
   all other cases the text of the value at which the walk ends.
   */
  lemma EvalCases<F>(lib: Library<F>, expr: string, payload: Json, words: seq<string>, parts: seq<string>,
                     path: seq<string>, chain: seq<Json>)
    requires Reads(expr, words, parts, path) && IsWalk(chain, path, payload)
    ensures var v := chain[|chain| - 1];
            Eval(lib, expr, payload) ==
            if |chain| == |path| + 1 && (v.Bool? || v.Int? || v.Float?)
               && |parts| > 1 && lib.toFloat(parts[1]).Some? then
              if lib.isZero(lib.toFloat(parts[1]).value) then Some("0")
              else lib.quotient(v, lib.toFloat(parts[1]).value)
            else Some(lib.str(v))
  {
    WithoutJoins(words, ' ');
    JoinSplit(parts, '/');
    JoinSplit(path, '.');
    LookupFollowsWalk(chain, path, payload);
  }

  /** Every expression can be read in this way, and every payload walked. */
  lemma EvalReads(expr: string, payload: Json)
    returns (words: seq<string>, parts: seq<string>, path: seq<string>, chain: seq<Json>)
    ensures Reads(expr, words, parts, path) && IsWalk(chain, path, payload)
  {
    words := Split(expr, ' ');
    SplitJoin(expr, ' ');
    parts := Split(Concat(words), '/');
    SplitJoin(Concat(words), '/');
    path := Split(parts[0], '.');
    SplitJoin(parts[0], '.');
    chain := WalkExists(path, payload);
  }

  lemma {:induction false} WalkExists(path: seq<string>, j: Json) returns (chain: seq<Json>)
    ensures IsWalk(chain, path, j)
    decreases |path|
  {
    chain := [j];
    if path != [] && j.Obj? {
      var rest := WalkExists(path[1..], Get(j, path[0]));
      chain := [j] + rest;
      forall i | 0 <= i < |chain| - 1
        ensures chain[i].Obj?
        ensures chain[i + 1] == if path[i] in chain[i].fields then chain[i].fields[path[i]] else Str("")
      {
        if i > 0 {
          assert rest[i - 1].Obj? && rest[i - 1 + 1] == Get(rest[i - 1], path[1..][i - 1]);
        }
      }
    }
  }

  method EvalExpr<F>(lib: Library<F>, expr: string, payload: Json) returns (text: Option<string>)
    ensures text == Eval(lib, expr, payload)
  {
    var parts := Split(Without(expr, ' '), '/');
    var path := Split(parts[0], '.');
    var current := payload;
    var i := 0;
    while i < |path|
      invariant 0 <= i <= |path| && Lookup(path, payload) == Lookup(path[i..], current)
    {
      if current.Obj? {
        assert path[i..][1..] == path[i + 1..];
        current := Get(current, path[i]);
      } else {
        return Some(lib.str(current));
      }
      i := i + 1;
    }
    if |parts| > 1 && IsNumber(current) {
      var divisor := lib.toFloat(parts[1]);
      if divisor.None? {
        return Some(lib.str(current));
      }
      if lib.isZero(divisor.value) {
        return Some("0");
      }
      return lib.quotient(current, divisor.value);
    }
    return Some(lib.str(current));
  }

  // ---------------------------------------------------------------- template bodies

  function Replacer<F>(lib: Library<F>, payload: Json): string -> Option<string> {
    inner => Eval(lib, lib.strip(inner), payload)
  }

  /** The new value of one template field; None when an expression raised. */
  function Fill<F>(lib: Library<F>, value: Json, payload: Json): Option<Json> {
    if value.Str? then
      var text := Template.Sub(value.s, 0, Replacer(lib, payload));
      if text.Some? then Some(Str(text.value)) else None
    else Some(value)
  }

  /** All the values, unless one of them is missing. */
  function Collect(values: map<string, Option<Json>>): Option<map<string, Json>> {
    if forall k :: k in values ==> values[k].Some? then Some(map k | k in values :: values[k].value) else None
  }

  lemma CollectIs(values: map<string, Option<Json>>, all: map<string, Json>)
    ensures Collect(values) == Some(all) <==>
            all.Keys == values.Keys && forall k :: k in values ==> values[k] == Some(all[k])
  {
    if all.Keys == values.Keys && forall k :: k in values ==> values[k] == Some(all[k]) {
      assert Collect(values).value == all;
    }
  }

  function Fills<F>(lib: Library<F>, template: map<string, Json>, payload: Json): map<string, Option<Json>> {
    map k | k in template :: Fill(lib, template[k], payload)
  }

  function Filled<F>(lib: Library<F>, template: map<string, Json>, payload: Json): Option<map<string, Json>> {
    Collect(Fills(lib, template, payload))
  }

  method ApplyTemplate<F>(lib: Library<F>, template: map<string, Json>, payload: Json)
    returns (result: Option<map<string, Json>>)
    ensures result == Filled(lib, template, payload)
    ensures result.Some? ==> FilledFrom(lib, template, payload, result.value)
    ensures result.None? ==> Raises(lib, template, payload)
  {
    ghost var values := Fills(lib, template, payload);
    var filled: map<string, Json> := map[];
    var todo := template.Keys;
    while todo != {}
      invariant todo <= template.Keys && filled.Keys == template.Keys - todo
      invariant forall k :: k in filled ==> values[k] == Some(filled[k])
      decreases todo
    {
      var key :| key in todo;
      var value := Fill(lib, template[key], payload);
      assert values[key] == value;
      if value.None? {
        ApplyMeaning(lib, template, payload);
        return None;
      }
      filled := filled[key := value.value];
      todo := todo - {key};
    }
    CollectIs(values, filled);
    ApplyMeaning(lib, template, payload);
    return Some(filled);
  }

  /** Fields that are not text are copied, and text without placeholders is too. */
  lemma TemplateCopies<F>(lib: Library<F>, template: map<string, Json>, payload: Json, k: string)
    requires k in template && Filled(lib, template, payload).Some?
    ensures Filled(lib, template, payload).value.Keys == template.Keys
    ensures !template[k].Str? || (forall lo: nat :: Template.NoMatchAt(template[k].s, lo)) ==>
              Filled(lib, template, payload).value[k] == template[k]
  {
    if template[k].Str? && forall lo: nat :: Template.NoMatchAt(template[k].s, lo) {
      Template.MatchFreeUnchanged(template[k].s, Replacer(lib, payload));
    }
  }

  // ---------------------------------------------------------------- pipelines

  /** A pipeline step as stored: each field may be absent. */
  datatype Step = Step(kind: Option<string>, body: Option<map<string, Json>>, expression: Option<string>)

  /** Errors that name the step they come from, and errors raised inside a library. */
  datatype Error =
    | MissingBody(idx: nat)
    | MissingExpression(idx: nat)
    | TooLong(idx: nat)
    | UnknownType(idx: nat)
    | Raised

  function RunStep<F>(lib: Library<F>, step: Step, idx: nat, current: Json): Result<Json, Error> {
    if step.kind == Some("passthrough") then Ok(current)
    else if step.kind == Some("template") then
      if step.body.None? then Err(MissingBody(idx))
      else
        var filled := Filled(lib, step.body.value, current);
        if filled.None? then Err(Raised) else Ok(Obj(filled.value))
    else if step.kind == Some("jmespath") then
      if step.expression.None? then Err(MissingExpression(idx))
      else if |step.expression.value| > MAX_EXPRESSION_LEN then Err(TooLong(idx))
      else
        var found := lib.search(step.expression.value, current);
        if found.None? then Err(Raised) else if found.value.Null? then Ok(current) else Ok(found.value)
    else Err(UnknownType(idx))
  }

  /** The steps in turn, numbered from `idx`, up to the first error. */
  function RunFrom<F>(lib: Library<F>, pipeline: seq<Step>, idx: nat, payload: Json): Result<Json, Error> {
    if pipeline == [] then Ok(payload)
    else
      var r := RunStep(lib, pipeline[0], idx, payload);
      if r.Err? then r else RunFrom(lib, pipeline[1..], idx + 1, r.value)
  }

  method ApplyPipeline<F>(lib: Library<F>, pipeline: seq<Step>, payload: Json) returns (result: Result<Json, Error>)
    ensures result == RunFrom(lib, pipeline, 0, payload)
    ensures result.Ok? ==> LeadsTo(lib, pipeline, payload, result.value)
    ensures result.Err? ==> StopsWith(lib, pipeline, 0, payload, result.error)
  {
    RunFollowsChain(lib, pipeline, 0, payload);
    var current := payload;
    for idx := 0 to |pipeline|
      invariant RunFrom(lib, pipeline, 0, payload) == RunFrom(lib, pipeline[idx..], idx, current)
    {
      var step := pipeline[idx];
      assert pipeline[idx..][0] == step && pipeline[idx..][1..] == pipeline[idx + 1..];
      if step.kind == Some("passthrough") {
        continue;
      } else if step.kind == Some("template") {
        if step.body.None? {
          return Err(MissingBody(idx));
        }
        var filled := ApplyTemplate(lib, step.body.value, current);
        if filled.None? {
          return Err(Raised);
        }
        current := Obj(filled.value);
      } else if step.kind == Some("jmespath") {
        if step.expression.None? {
          return Err(MissingExpression(idx));
        }
        if |step.expression.value| > MAX_EXPRESSION_LEN {
          return Err(TooLong(idx));
        }
        var found := lib.search(step.expression.value, current);
        if found.None? {
          return Err(Raised);
        }
        current := if found.value.Null? then current else found.value;
      } else {
        return Err(UnknownType(idx));
      }
    }
    return Ok(current);
  }

  // ---------------------------------------------------------------- what a pipeline does

  /** Literals as they are, and for each placeholder the value of the expression between its braces. */
  function Rendering<F>(lib: Library<F>, segs: seq<Template.Segment>, s: string, x: Json): Option<string> {
    if segs == [] then Some("")
    else
      var piece :=
        match segs[0]
        case Literal(lo, hi) => if lo <= hi <= |s| then Some(s[lo..hi]) else None
        case Placeholder(lo, hi) => if lo + 5 <= hi <= |s| then Eval(lib, lib.strip(s[lo + 2..hi - 2]), x) else None;
      var rest := Rendering(lib, segs[1..], s, x);
      if piece.Some? && rest.Some? then Some(piece.value + rest.value) else None
  }

  /** The text is a rendering of a tiling of `s`; None stands for an expression that raised. */
  ghost predicate Writes<F>(lib: Library<F>, s: string, x: Json, text: Option<string>) {
    exists segs :: Template.Tiling(s, segs, 0) && Rendering(lib, segs, s, x) == text
  }

  /** A text field becomes a rendering, any other a copy. */
  ghost predicate Becomes<F>(lib: Library<F>, value: Json, x: Json, y: Json) {
    if value.Str? then y.Str? && Writes(lib, value.s, x, Some(y.s)) else y == value
  }

  /** The fields of a template, its texts rendered and everything else copied. */
  ghost predicate FilledFrom<F>(lib: Library<F>, template: map<string, Json>, x: Json, fields: map<string, Json>) {
    && fields.Keys == template.Keys
    && forall k :: k in template ==> Becomes(lib, template[k], x, fields[k])
  }

  /** An expression in some text of the template raised. */
  ghost predicate Raises<F>(lib: Library<F>, template: map<string, Json>, x: Json) {
    exists k :: k in template && template[k].Str? && Writes(lib, template[k].s, x, None)
  }

  /** The step turns payload `x` into `y`. */
  ghost predicate Moves<F>(lib: Library<F>, step: Step, x: Json, y: Json) {
    || (step.kind == Some("passthrough") && y == x)
    || (step.kind == Some("template") && step.body.Some? && y.Obj? && FilledFrom(lib, step.body.value, x, y.fields))
    || (step.kind == Some("jmespath") && step.expression.Some? && |step.expression.value| <= 2048
        && var found := lib.search(step.expression.value, x);
        && found.Some? && y == if found.value == Null then x else found.value)
  }

  /** Step number `idx` fails on payload `x` with this error. */
  ghost predicate Fails<F>(lib: Library<F>, step: Step, idx: nat, x: Json, e: Error) {
    match e
    case MissingBody(i) => i == idx && step.kind == Some("template") && step.body.None?
    case MissingExpression(i) => i == idx && step.kind == Some("jmespath") && step.expression.None?
    case TooLong(i) =>
      i == idx && step.kind == Some("jmespath") && step.expression.Some? && |step.expression.value| > 2048
    case UnknownType(i) =>
      i == idx && step.kind !in {Some("passthrough"), Some("template"), Some("jmespath")}
    case Raised =>
      || (step.kind == Some("template") && step.body.Some? && Raises(lib, step.body.value, x))
      || (step.kind == Some("jmespath") && step.expression.Some? && |step.expression.value| <= 2048
          && lib.search(step.expression.value, x) == None)
  }

  /** Payloads of which each comes from the one before by its step, as far as they go. */
  ghost predicate IsChain<F>(lib: Library<F>, pipeline: seq<Step>, chain: seq<Json>, x: Json) {
    && 0 < |chain| <= |pipeline| + 1 && chain[0] == x
    && forall i :: 0 <= i < |chain| - 1 ==> Moves(lib, pipeline[i], chain[i], chain[i + 1])
  }

  /** A chain through the whole pipeline ends in `v`. */
  ghost predicate LeadsTo<F>(lib: Library<F>, pipeline: seq<Step>, x: Json, v: Json) {
    exists chain :: IsChain(lib, pipeline, chain, x) && |chain| == |pipeline| + 1 && chain[|pipeline|] == v
  }

  /** A chain ends before a step, numbered from `idx`, that fails with this error. */
  ghost predicate StopsWith<F>(lib: Library<F>, pipeline: seq<Step>, idx: nat, x: Json, e: Error) {
    exists chain :: IsChain(lib, pipeline, chain, x) && |chain| <= |pipeline|
                    && Fails(lib, pipeline[|chain| - 1], idx + |chain| - 1, chain[|chain| - 1], e)
  }

  lemma {:induction false} RenderingIsRender<F>(lib: Library<F>, segs: seq<Template.Segment>, s: string, x: Json)
    ensures Rendering(lib, segs, s, x) == Template.Render(segs, s, Replacer(lib, x))
  {
    if segs != [] {
      RenderingIsRender(lib, segs[1..], s, x);
    }
  }

  lemma WritesSub<F>(lib: Library<F>, s: string, x: Json, text: Option<string>)
    ensures Writes(lib, s, x, text) <==> text == Template.Sub(s, 0, Replacer(lib, x))
  {
    var segs := Template.TilingExists(s, 0);
    RenderingIsRender(lib, segs, s, x);
    Template.SubIsRender(s, segs, 0, Replacer(lib, x));
    if other :| Template.Tiling(s, other, 0) && Rendering(lib, other, s, x) == text {
      RenderingIsRender(lib, other, s, x);
      Template.SubIsRender(s, other, 0, Replacer(lib, x));
    }
  }

  lemma FillIs<F>(lib: Library<F>, value: Json, x: Json, y: Json)
    ensures Becomes(lib, value, x, y) <==> Fill(lib, value, x) == Some(y)
    ensures value.Str? && Writes(lib, value.s, x, None) <==> Fill(lib, value, x).None?
  {
    if value.Str? {
      WritesSub(lib, value.s, x, None);
      if y.Str? { WritesSub(lib, value.s, x, Some(y.s)); }
    }
  }

  lemma FilledIs<F>(lib: Library<F>, template: map<string, Json>, x: Json, fields: map<string, Json>)
    ensures FilledFrom(lib, template, x, fields) <==> Filled(lib, template, x) == Some(fields)
  {
    var values := Fills(lib, template, x);
    CollectIs(values, fields);
    assert values.Keys == template.Keys;
    if fields.Keys == template.Keys {
      forall k | k in template
        ensures Becomes(lib, template[k], x, fields[k]) <==> values[k] == Some(fields[k])
      {
        FillIs(lib, template[k], x, fields[k]);
      }
    }
  }

  lemma FillRaises<F>(lib: Library<F>, template: map<string, Json>, x: Json)
    ensures Raises(lib, template, x) <==> Filled(lib, template, x).None?
  {
    var values := Fills(lib, template, x);
    forall k | k in template
      ensures template[k].Str? && Writes(lib, template[k].s, x, None) <==> values[k].None?
    {
      FillIs(lib, template[k], x, Null);
    }
  }

  /** A template is filled field by field with renderings and copies, unless some expression raises. */
  lemma ApplyMeaning<F>(lib: Library<F>, template: map<string, Json>, x: Json)
    ensures var r := Filled(lib, template, x);
            (r.Some? ==> FilledFrom(lib, template, x, r.value)) && (r.None? ==> Raises(lib, template, x))
  {
    var r := Filled(lib, template, x);
    FillRaises(lib, template, x);
    if r.Some? { FilledIs(lib, template, x, r.value); }
  }

  /** A step succeeds with what it moves to, and fails as said. */
  lemma StepMoves<F>(lib: Library<F>, step: Step, idx: nat, x: Json, y: Json, e: Error)
    ensures RunStep(lib, step, idx, x) == Ok(y) <==> Moves(lib, step, x, y)
    ensures RunStep(lib, step, idx, x) == Err(e) <==> Fails(lib, step, idx, x, e)
  {
    if step.kind == Some("template") {
      TemplateMoves(lib, step, idx, x, y, e);
    } else if step.kind == Some("jmespath") {
      SearchMoves(lib, step, idx, x, y, e);
    }
  }

  lemma TemplateMoves<F>(lib: Library<F>, step: Step, idx: nat, x: Json, y: Json, e: Error)
    requires step.kind == Some("template")
    ensures RunStep(lib, step, idx, x) == Ok(y) <==> Moves(lib, step, x, y)
    ensures RunStep(lib, step, idx, x) == Err(e) <==> Fails(lib, step, idx, x, e)
  {
    if step.body.Some? {
      FillRaises(lib, step.body.value, x);
      if y.Obj? { FilledIs(lib, step.body.value, x, y.fields); }
    }
  }

  lemma SearchMoves<F>(lib: Library<F>, step: Step, idx: nat, x: Json, y: Json, e: Error)
    requires step.kind == Some("jmespath")
    ensures RunStep(lib, step, idx, x) == Ok(y) <==> Moves(lib, step, x, y)
    ensures RunStep(lib, step, idx, x) == Err(e) <==> Fails(lib, step, idx, x, e)
  {
  }

  lemma {:induction false} RunIsChain<F>(lib: Library<F>, pipeline: seq<Step>, idx: nat, x: Json)
    returns (chain: seq<Json>)
    ensures IsChain(lib, pipeline, chain, x)
    ensures var r := RunFrom(lib, pipeline, idx, x);
            if r.Ok? then |chain| == |pipeline| + 1 && chain[|pipeline|] == r.value
            else
              && |chain| <= |pipeline|
              && Fails(lib, pipeline[|chain| - 1], idx + |chain| - 1, chain[|chain| - 1], r.error)
    decreases |pipeline|
  {
    chain := [x];
    if pipeline != [] {
      var r := RunStep(lib, pipeline[0], idx, x);
      StepMoves(lib, pipeline[0], idx, x, if r.Ok? then r.value else x, if r.Err? then r.error else Raised);
      if r.Ok? {
        var rest := RunIsChain(lib, pipeline[1..], idx + 1, r.value);
        chain := [x] + rest;
        forall i | 0 <= i < |chain| - 1
          ensures Moves(lib, pipeline[i], chain[i], chain[i + 1])
        {
          if i > 0 { assert Moves(lib, pipeline[1..][i - 1], rest[i - 1], rest[i - 1 + 1]); }
        }
      }
    }
  }

  lemma {:induction false} ChainIsRun<F>(lib: Library<F>, pipeline: seq<Step>, idx: nat, x: Json, chain: seq<Json>,
                                         e: Error)
    requires IsChain(lib, pipeline, chain, x)
    ensures |chain| == |pipeline| + 1 ==> RunFrom(lib, pipeline, idx, x) == Ok(chain[|pipeline|])
    ensures |chain| <= |pipeline| && Fails(lib, pipeline[|chain| - 1], idx + |chain| - 1, chain[|chain| - 1], e) ==>
              RunFrom(lib, pipeline, idx, x) == Err(e)
    decreases |pipeline|
  {
    if |chain| > 1 {
      var rest := chain[1..];
      forall i | 0 <= i < |rest| - 1
        ensures Moves(lib, pipeline[1..][i], rest[i], rest[i + 1])
      {
        assert Moves(lib, pipeline[i + 1], chain[i + 1], chain[i + 1 + 1]);
      }
      StepMoves(lib, pipeline[0], idx, x, chain[1], e);
      ChainIsRun(lib, pipeline[1..], idx + 1, chain[1], rest, e);
    } else if pipeline != [] {
      StepMoves(lib, pipeline[0], idx, x, x, e);
    }
  }

  /**
   A pipeline yields v exactly when a chain of payloads through all its steps ends in v, and an error
   exactly when a chain ends before a step that fails with it.
   */
  lemma RunFollowsChain<F>(lib: Library<F>, pipeline: seq<Step>, idx: nat, x: Json)
    ensures forall v :: RunFrom(lib, pipeline, idx, x) == Ok(v) <==> LeadsTo(lib, pipeline, x, v)
    ensures forall e :: RunFrom(lib, pipeline, idx, x) == Err(e) <==> StopsWith(lib, pipeline, idx, x, e)
  {
    var run := RunIsChain(lib, pipeline, idx, x);
    forall v | LeadsTo(lib, pipeline, x, v)
      ensures RunFrom(lib, pipeline, idx, x) == Ok(v)
    {
      var chain :| IsChain(lib, pipeline, chain, x) && |chain| == |pipeline| + 1 && chain[|pipeline|] == v;
      ChainIsRun(lib, pipeline, idx, x, chain, Raised);
    }
    forall e | StopsWith(lib, pipeline, idx, x, e)
      ensures RunFrom(lib, pipeline, idx, x) == Err(e)
    {
      var chain :| IsChain(lib, pipeline, chain, x) && |chain| <= |pipeline|
                   && Fails(lib, pipeline[|chain| - 1], idx + |chain| - 1, chain[|chain| - 1], e);
      ChainIsRun(lib, pipeline, idx, x, chain, e);
    }
  }

  /** Running p ++ q is running q on the result of p, with p's errors coming through. */
  lemma {:induction false} Composition<F>(lib: Library<F>, p: seq<Step>, q: seq<Step>, idx: nat, x: Json)
    ensures RunFrom(lib, p + q, idx, x) ==
            var r := RunFrom(lib, p, idx, x);
            if r.Err? then r else RunFrom(lib, q, idx + |p|, r.value)
    decreases |p|
  {
    if p == [] {
      assert p + q == q;
    } else {
      assert (p + q)[1..] == p[1..] + q;
      var r := RunStep(lib, p[0], idx, x);
      if r.Ok? {
        Composition(lib, p[1..], q, idx + 1, r.value);
      }
    }
  }

  function Shift(e: Error, delta: int): Error
    requires !e.Raised? ==> e.idx + delta >= 0
  {
    match e
    case MissingBody(i) => MissingBody(i + delta)
    case MissingExpression(i) => MissingExpression(i + delta)
    case TooLong(i) => TooLong(i + delta)
    case UnknownType(i) => UnknownType(i + delta)
    case Raised => Raised
  }

  /** Numbering the steps from elsewhere only moves the step number of an error. */
  lemma {:induction false} Renumber<F>(lib: Library<F>, p: seq<Step>, i: nat, j: nat, x: Json)
    ensures var r, t := RunFrom(lib, p, i, x), RunFrom(lib, p, j, x);
            if r.Ok? then t == r
            else (r.error.Raised? || r.error.idx >= i) && t == Err(Shift(r.error, j - i))
    decreases |p|
  {
    if p != [] {
      var r := RunStep(lib, p[0], i, x);
      if r.Ok? {
        Renumber(lib, p[1..], i + 1, j + 1, r.value);
      }
    }
  }

  /** The step leaves this payload as it is: a passthrough, or a search that finds nothing. */
  predicate Idle<F>(lib: Library<F>, step: Step, x: Json) {
    || step.kind == Some("passthrough")
    || (step.kind == Some("jmespath") && step.expression.Some? && |step.expression.value| <= MAX_EXPRESSION_LEN
        && lib.search(step.expression.value, x) == Some(Null))
  }

  /**
   Deleting a step that is idle where the pipeline reaches it never changes the outcome; only the
   step number of a later error moves down by one.
   */
  lemma DeleteIdle<F>(lib: Library<F>, p: seq<Step>, step: Step, q: seq<Step>, x: Json)
    requires RunFrom(lib, p, 0, x).Ok? ==> Idle(lib, step, RunFrom(lib, p, 0, x).value)
    ensures var r, t := RunFrom(lib, p + [step] + q, 0, x), RunFrom(lib, p + q, 0, x);
            if RunFrom(lib, p, 0, x).Err? || r.Ok? then t == r
            else (r.error.Raised? || r.error.idx > |p|) && t == Err(Shift(r.error, -1))
  {
    assert p + [step] + q == p + ([step] + q);
    Composition(lib, p, [step] + q, 0, x);
    Composition(lib, p, q, 0, x);
    var y := RunFrom(lib, p, 0, x);
    if y.Ok? {
      assert ([step] + q)[1..] == q;
      Renumber(lib, q, |p| + 1, |p|, y.value);
    }
  }
}
