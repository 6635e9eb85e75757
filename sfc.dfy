/**
  * The part of `transformVueSFC` that src/index.js and src/compiler.worker.js
  * share: parse, derive the scope id, compile the script, then the template
  * with the script's bindings, then every style block, inline each source
  * map as a trailing comment and gather the CSS. The compiler of
  * `@vue/compiler-sfc` is taken as given: its four entry points are the
  * function fields of `Compiler`, and whatever they return is arbitrary.
  */
module Sfc {
  import opened Wrappers
  import opened Text

  /** `bindingMetadata`: identifier name to binding kind. */
  type Bindings = map<string, string>

  datatype SourceMap = SourceMap(version: nat, sources: seq<string>, names: seq<string>, mappings: string)

  datatype Block = Block(content: string)

  datatype StyleBlock = StyleBlock(content: string, scoped: bool, lang: Option<string>)

  /** What `parse` splits a component into. */
  datatype Descriptor = Descriptor(
    filename: string,
    template: Option<Block>,
    script: Option<Block>,
    scriptSetup: Option<Block>,
    styles: seq<StyleBlock>,
    slotted: bool)

  datatype ParseOutput = ParseOutput(descriptor: Descriptor, errors: seq<string>)

  datatype CompilerOptions = CompilerOptions(scopeId: Option<string>, mode: string, bindingMetadata: Option<Bindings>)

  datatype TemplateOptions = TemplateOptions(
    id: string,
    source: string,
    filename: string,
    scoped: bool,
    slotted: bool,
    sourceMap: bool,
    compilerOptions: CompilerOptions)

  datatype ScriptOptions = ScriptOptions(id: string, templateOptions: TemplateOptions, sourceMap: bool)

  datatype ScriptBlock = ScriptBlock(content: string, sourceMap: Option<SourceMap>, bindings: Option<Bindings>)

  datatype TemplateResult = TemplateResult(code: string, sourceMap: Option<SourceMap>, errors: seq<string>)

  datatype StyleOptions = StyleOptions(id: string, source: string, scoped: bool, preprocessLang: Option<string>)

  datatype StyleResult = StyleResult(code: string, errors: seq<string>)

  /** The entry points of `@vue/compiler-sfc`; `Err` is an exception they throw. */
  datatype Compiler = Compiler(
    parse: (string, string) -> ParseOutput,
    compileScript: (Descriptor, ScriptOptions) -> Result<ScriptBlock, string>,
    compileTemplate: TemplateOptions -> Result<TemplateResult, string>,
    compileStyle: StyleOptions -> Result<StyleResult, string>)

  /** Why a transform throws. */
  datatype Failure =
    | ParseErrors(errors: seq<string>)   // `throw new Error(errors.toString())`
    | MissingTemplate                     // `descriptor.template.content` on a null template
    | Threw(message: string)              // an exception out of the compiler

  /** Everything a transform computed, in the order it computed it. */
  datatype Compiled = Compiled(
    descriptor: Descriptor,
    scopeId: Option<string>,
    scriptRequest: ScriptOptions,
    scriptOut: ScriptBlock,
    script: ScriptBlock,
    templateRequest: TemplateOptions,
    templateOut: TemplateResult,
    template: TemplateResult,
    styled: seq<StyleResult>,
    cssInJs: string)

  predicate HasScoped(styles: seq<StyleBlock>)
  {
    exists i :: 0 <= i < |styles| && styles[i].scoped
  }

  /** The attribute that scoped CSS selects on: `data-v-<id>`. */
  function ScopeIdOf(id: string): string
  {
    "data-v-" + id
  }

  function ScopeId(id: string, styles: seq<StyleBlock>): Option<string>
  {
    if HasScoped(styles) then Some(ScopeIdOf(id)) else None
  }

  /** The `templateOptions` literal. */
  function TemplateOptionsFor(id: string, d: Descriptor, scopeId: Option<string>): TemplateOptions
    requires d.template.Some?
  {
    TemplateOptions(
      id, d.template.value.content, d.filename, HasScoped(d.styles), d.slotted, false,
      CompilerOptions(if HasScoped(d.styles) then scopeId else None, "module", None))
  }

  /** The argument of `compileTemplate`: the template options, a source map, and the script's bindings. */
  function TemplateRequest(options: TemplateOptions, bindings: Option<Bindings>): TemplateOptions
  {
    options.(sourceMap := true, compilerOptions := options.compilerOptions.(bindingMetadata := bindings))
  }

  /** `template.sourceMap.sources[0] = `${template.sourceMap.sources[0]}?template``; an empty list gets `undefined?template`. */
  function TagTemplateMap(m: SourceMap): (r: SourceMap)
    ensures |r.sources| == if |m.sources| == 0 then 1 else |m.sources|
    ensures r.sources[0] == (if |m.sources| == 0 then "undefined" else m.sources[0]) + "?template"
    ensures r.sources[1..] == if |m.sources| == 0 then [] else m.sources[1..]
    ensures r.(sources := m.sources) == m
  {
    if |m.sources| == 0 then m.(sources := ["undefined?template"])
    else m.(sources := [m.sources[0] + "?template"] + m.sources[1..])
  }

  function StyleRequest(id: string, style: StyleBlock): StyleOptions
  {
    StyleOptions(id, style.content, style.scoped, style.lang)
  }

  /** Block `i` is the first whose compilation throws, and it throws `e`. */
  predicate FirstThrow(c: Compiler, id: string, styles: seq<StyleBlock>, i: int, e: string)
  {
    && 0 <= i < |styles|
    && c.compileStyle(StyleRequest(id, styles[i])) == Err(e)
    && forall j :: 0 <= j < i ==> c.compileStyle(StyleRequest(id, styles[j])).Ok?
  }

  /**
    * `descriptor.styles.map(style => compiler.compileStyle(...))`: one call per
    * block, in source order; the first exception ends it.
    */
  function CompileStyles(c: Compiler, id: string, styles: seq<StyleBlock>): (r: Result<seq<StyleResult>, string>)
    ensures r.Ok? ==> |r.value| == |styles|
    ensures r.Ok? ==> forall i :: 0 <= i < |styles| ==> c.compileStyle(StyleRequest(id, styles[i])) == Ok(r.value[i])
    ensures r.Err? ==> exists i :: FirstThrow(c, id, styles, i, r.error)
  {
    if |styles| == 0 then Ok([])
    else
      match c.compileStyle(StyleRequest(id, styles[0]))
      case Err(e) =>
        assert FirstThrow(c, id, styles, 0, e);
        Err(e)
      case Ok(first) =>
        match CompileStyles(c, id, styles[1..])
        case Err(e) =>
          var i :| FirstThrow(c, id, styles[1..], i, e);
          assert forall j :: 0 <= j < i + 1 ==> c.compileStyle(StyleRequest(id, styles[j])).Ok? by {
            forall j | 0 <= j < i + 1 ensures c.compileStyle(StyleRequest(id, styles[j])).Ok? {
              if j > 0 {
                assert styles[j] == styles[1..][j - 1];
              }
            }
          }
          assert FirstThrow(c, id, styles, i + 1, e);
          Err(e)
        case Ok(rest) => Ok([first] + rest)
  }

  /** One piece of CSS per compiled style: `prefix` then the code. */
  function CssPieces(prefix: string, styled: seq<StyleResult>): (r: seq<string>)
    ensures |r| == |styled|
    ensures forall i :: 0 <= i < |styled| ==> r[i] == prefix + styled[i].code
  {
    if |styled| == 0 then [] else [prefix + styled[0].code] + CssPieces(prefix, styled[1..])
  }

  const STYLE_OPEN: string := "(function(){const el = document.createElement('style');"

  /** The statement that appends a `<style>` element holding `cssCode` to the document body. */
  function CssInJs(cssCode: string): string
  {
    STYLE_OPEN + "\nel.innerHTML = `" + cssCode + "`;\ndocument.body.appendChild(el);}());"
  }

  /** `cssInJS`: empty unless some style was compiled. */
  function StyleInjection(pieces: seq<string>): string
  {
    if |pieces| == 0 then "" else CssInJs(Join(pieces, "\n"))
  }

  /**
    * Parse, then compile script, template and styles as both transforms do.
    * `comment` is how the transform renders a source map as a trailing
    * comment and `cssPrefix` what it puts before each compiled style.
    */
  function Compile(c: Compiler, comment: SourceMap -> string, cssPrefix: string,
                   source: string, filename: string, id: string): Result<Compiled, Failure>
  {
    var parsed := c.parse(source, filename);
    if |parsed.errors| > 0 then Err(ParseErrors(parsed.errors))
    else
      var d := parsed.descriptor;
      if d.template.None? then Err(MissingTemplate)
      else
        var scopeId := ScopeId(id, d.styles);
        var templateOptions := TemplateOptionsFor(id, d, scopeId);
        var scriptRequest := ScriptOptions(id, templateOptions, true);
        match c.compileScript(d, scriptRequest)
        case Err(e) => Err(Threw(e))
        case Ok(scriptOut) =>
          var script :=
            if scriptOut.sourceMap.Some? then scriptOut.(content := scriptOut.content + comment(scriptOut.sourceMap.value))
            else scriptOut;
          var templateRequest := TemplateRequest(templateOptions, script.bindings);
          match c.compileTemplate(templateRequest)
          case Err(e) => Err(Threw(e))
          case Ok(templateOut) =>
            var template :=
              if templateOut.sourceMap.Some? then
                var tagged := TagTemplateMap(templateOut.sourceMap.value);
                templateOut.(sourceMap := Some(tagged), code := templateOut.code + comment(tagged))
              else templateOut;
            match CompileStyles(c, id, d.styles)
            case Err(e) => Err(Threw(e))
            case Ok(styled) =>
              var cssInJs := StyleInjection(CssPieces(cssPrefix, styled));
              Ok(Compiled(d, scopeId, scriptRequest, scriptOut, script, templateRequest, templateOut,
                          template, styled, cssInJs))
  }

  /**
    * The failure a compile ends in: the parse errors first, then the
    * missing template, and otherwise what a compiler threw.
    */
  lemma CompileFailures(c: Compiler, comment: SourceMap -> string, cssPrefix: string,
                    source: string, filename: string, id: string)
    ensures |c.parse(source, filename).errors| > 0 ==> Compile(c, comment, cssPrefix, source, filename, id) == Err(ParseErrors(c.parse(source, filename).errors))
    ensures |c.parse(source, filename).errors| == 0 && c.parse(source, filename).descriptor.template.None?
      ==> Compile(c, comment, cssPrefix, source, filename, id) == Err(MissingTemplate)
    ensures var r := Compile(c, comment, cssPrefix, source, filename, id);
      r.Err? && !r.error.ParseErrors? && !r.error.MissingTemplate? ==> r.error.Threw?
  {
  }

  /**
    * A successful compile parsed without errors, found a template, and gave
    * the scope id and the template options to the script compiler.
    */
  lemma CompileOptions(c: Compiler, comment: SourceMap -> string, cssPrefix: string,
                    source: string, filename: string, id: string)
    ensures var r := Compile(c, comment, cssPrefix, source, filename, id);
      r.Ok? ==> var x := r.value; var d := x.descriptor;
      && c.parse(source, filename) == ParseOutput(d, [])
      && d.template.Some?
      // the scope id exists exactly when some style block is scoped
      && (x.scopeId.Some? <==> exists i :: 0 <= i < |d.styles| && d.styles[i].scoped)
      && (x.scopeId.Some? ==> x.scopeId.value == ScopeIdOf(id))
      // the template options carry the scope flag and the scope id
      && x.scriptRequest == ScriptOptions(id, x.scriptRequest.templateOptions, true)
      && x.scriptRequest.templateOptions.id == id
      && x.scriptRequest.templateOptions.source == d.template.value.content
      && x.scriptRequest.templateOptions.scoped == x.scopeId.Some?
      && x.scriptRequest.templateOptions.compilerOptions == CompilerOptions(x.scopeId, "module", None)
  {
  }

  /**
    * A successful compile compiled the script first and gave its bindings to
    * the template compiler, then inlined each source map after its code.
    */
  lemma CompileSteps(c: Compiler, comment: SourceMap -> string, cssPrefix: string,
                    source: string, filename: string, id: string)
    ensures var r := Compile(c, comment, cssPrefix, source, filename, id);
      r.Ok? ==> var x := r.value; var d := x.descriptor;
      && c.compileScript(d, x.scriptRequest) == Ok(x.scriptOut)
      && x.templateRequest == TemplateRequest(x.scriptRequest.templateOptions, x.scriptOut.bindings)
      && x.templateRequest.compilerOptions.bindingMetadata == x.scriptOut.bindings
      && c.compileTemplate(x.templateRequest) == Ok(x.templateOut)
      && x.script == x.scriptOut.(content := x.scriptOut.content
           + (if x.scriptOut.sourceMap.Some? then comment(x.scriptOut.sourceMap.value) else ""))
      && x.template.sourceMap == (if x.templateOut.sourceMap.Some? then Some(TagTemplateMap(x.templateOut.sourceMap.value)) else None)
      && x.template == x.templateOut.(sourceMap := x.template.sourceMap, code := x.templateOut.code
           + (if x.template.sourceMap.Some? then comment(x.template.sourceMap.value) else ""))
  {
  }

  /**
    * A successful compile compiled every style block, in source order, and
    * injects their CSS, each after `cssPrefix`, only when there is some.
    */
  lemma CompileStyled(c: Compiler, comment: SourceMap -> string, cssPrefix: string,
                    source: string, filename: string, id: string)
    ensures var r := Compile(c, comment, cssPrefix, source, filename, id);
      r.Ok? ==> var x := r.value; var d := x.descriptor;
      && |x.styled| == |d.styles|
      && (forall i :: 0 <= i < |d.styles| ==> c.compileStyle(StyleRequest(id, d.styles[i])) == Ok(x.styled[i]))
      && (|d.styles| == 0 ==> x.cssInJs == "")
      && (|d.styles| > 0 ==> x.cssInJs == CssInJs(Join(CssPieces(cssPrefix, x.styled), "\n")))
  {
  }

  /**
    * Two transforms whose comments render every map alike compile alike:
    * they fail together with the same failure, and otherwise differ at most
    * in the injected CSS.
    */
  lemma CompileAgree(c: Compiler, comment1: SourceMap -> string, comment2: SourceMap -> string,
                     prefix1: string, prefix2: string, source: string, filename: string, id: string)
    requires forall m :: comment1(m) == comment2(m)
    ensures Compile(c, comment1, prefix1, source, filename, id).Err?
      == Compile(c, comment2, prefix2, source, filename, id).Err?
    ensures Compile(c, comment1, prefix1, source, filename, id).Err? ==>
      Compile(c, comment1, prefix1, source, filename, id).error
      == Compile(c, comment2, prefix2, source, filename, id).error
    ensures Compile(c, comment1, prefix1, source, filename, id).Ok? ==>
      Compile(c, comment1, prefix1, source, filename, id).value.(cssInJs := "")
      == Compile(c, comment2, prefix2, source, filename, id).value.(cssInJs := "")
  {
  }

  /** `script.__file = '<filename>';` when there is a filename, else the bare `;`. */
  function FileStatement(filename: string): string
  {
    if filename != "" then "script.__file = '" + filename + "';" else ";"
  }

  /** `script.__scopeId = '<scope id>';` when there is a scope id, else the bare `;`. */
  function ScopeStatement(scopeId: Option<string>): string
  {
    if scopeId.Some? && scopeId.value != "" then "script.__scopeId = '" + scopeId.value + "';" else ";"
  }

  /** The lines of the component module before the style injection. */
  function ModuleHead(indent: string, scriptUrl: string, renderUrl: string, filename: string,
                      scopeId: Option<string>): seq<string>
  {
    ["",
     indent + "import script from '" + scriptUrl + "';",
     indent + "import {render} from '" + renderUrl + "';",
     indent + "script.render = render;",
     indent + FileStatement(filename),
     indent + ScopeStatement(scopeId)]
  }

  /** The lines of the component module after the style injection. */
  function ModuleTail(indent: string): seq<string>
  {
    [indent + "export default script;", "  "]
  }

  /** The text of the component module; `indent` is the template literal's indentation. */
  function ModuleText(indent: string, scriptUrl: string, renderUrl: string, filename: string,
                      scopeId: Option<string>, cssInJs: string): string
  {
    Join(ModuleHead(indent, scriptUrl, renderUrl, filename, scopeId) + [indent + cssInJs] + ModuleTail(indent), "\n")
  }

  /** `a + (b + c + d)` regrouped to the left. */
  lemma Regroup(a: string, b: string, c: string, d: string)
    ensures a + (b + c + d) == a + b + c + d
  {
    ConcatAssoc(a, b + c, d);
    ConcatAssoc(a, b, c);
  }

  /**
    * Line by line, the module is its fixed head, the lines of the style
    * injection, and its fixed tail: only the injected CSS may add lines.
    */
  lemma ModuleLines(indent: string, scriptUrl: string, renderUrl: string, filename: string,
                    scopeId: Option<string>, cssInJs: string)
    requires '\n' !in indent && '\n' !in scriptUrl && '\n' !in renderUrl && '\n' !in filename
    requires scopeId.Some? ==> '\n' !in scopeId.value
    ensures Lines(ModuleText(indent, scriptUrl, renderUrl, filename, scopeId, cssInJs))
      == ModuleHead(indent, scriptUrl, renderUrl, filename, scopeId) + Lines(indent + cssInJs) + ModuleTail(indent)
  {
    var head := ModuleHead(indent, scriptUrl, renderUrl, filename, scopeId);
    forall k | 0 <= k < |head| ensures '\n' !in head[k] {
      if k == 5 && scopeId.Some? && scopeId.value != "" {
        NoNewlineIn(indent, "script.__scopeId = '", scopeId.value, "';");
      } else if k == 4 && filename != "" {
        NoNewlineIn(indent, "script.__file = '", filename, "';");
      } else if k == 1 {
        NoNewlineIn(indent, "import script from '", scriptUrl, "';");
      } else if k == 2 {
        NoNewlineIn(indent, "import {render} from '", renderUrl, "';");
      }
    }
    LinesOfJoinAround(head, indent + cssInJs, ModuleTail(indent));
  }

  /** Pieces without a newline put together hold none. */
  lemma NoNewlineIn(a: string, b: string, c: string, d: string)
    requires '\n' !in a && '\n' !in b && '\n' !in c && '\n' !in d
    ensures '\n' !in a + b + c + d && '\n' !in a + (b + c + d)
  {
    Regroup(a, b, c, d);
  }

  /** A line `indent + statement` is the bare `indent;` only for the bare statement. */
  lemma StatementLine(indent: string, head: string, value: string)
    requires |head| > 0
    ensures indent + (head + value + "';") != indent + ";"
  {
    assert |indent + (head + value + "';")| > |indent + ";"|;
  }

  /** What each fixed line of the module says. */
  lemma ModuleShape(indent: string, scriptUrl: string, renderUrl: string, filename: string,
                    scopeId: Option<string>, cssInJs: string)
    requires '\n' !in indent && '\n' !in scriptUrl && '\n' !in renderUrl && '\n' !in filename
    requires scopeId.Some? ==> '\n' !in scopeId.value
    ensures var lines := Lines(ModuleText(indent, scriptUrl, renderUrl, filename, scopeId, cssInJs));
      && |lines| >= 9
      && lines[1] == indent + "import script from '" + scriptUrl + "';"
      && lines[2] == indent + "import {render} from '" + renderUrl + "';"
      && lines[3] == indent + "script.render = render;"
      && (filename != "" <==> lines[4] != indent + ";")
      && (filename != "" ==> lines[4] == indent + "script.__file = '" + filename + "';")
      && (scopeId.Some? && scopeId.value != "" <==> lines[5] != indent + ";")
      && (scopeId.Some? && scopeId.value != "" ==> lines[5] == indent + "script.__scopeId = '" + scopeId.value + "';")
      && lines[|lines| - 2] == indent + "export default script;"
  {
    ModuleLines(indent, scriptUrl, renderUrl, filename, scopeId, cssInJs);
    var head := ModuleHead(indent, scriptUrl, renderUrl, filename, scopeId);
    var mid := Lines(indent + cssInJs);
    var lines := head + mid + ModuleTail(indent);
    assert |lines| == 8 + |mid|;
    assert lines[|lines| - 2] == indent + "export default script;";
    assert lines[4] == head[4] && lines[5] == head[5];
    if filename != "" {
      StatementLine(indent, "script.__file = '", filename);
      Regroup(indent, "script.__file = '", filename, "';");
    }
    if scopeId.Some? && scopeId.value != "" {
      StatementLine(indent, "script.__scopeId = '", scopeId.value);
      Regroup(indent, "script.__scopeId = '", scopeId.value, "';");
    }
  }

  /**
    * The fixed lines of the module built from a compile whose scope id is
    * `ScopeIdOf(id)` exactly when some style block is scoped.
    */
  lemma CompiledShape(indent: string, scriptUrl: string, renderUrl: string, filename: string, id: string,
                      x: Compiled, text: string)
    requires '\n' !in indent && '\n' !in scriptUrl && '\n' !in renderUrl && '\n' !in filename && '\n' !in id
    requires HasScoped(x.descriptor.styles) <==> x.scopeId.Some?
    requires x.scopeId.Some? ==> x.scopeId.value == ScopeIdOf(id)
    requires text == ModuleText(indent, scriptUrl, renderUrl, filename, x.scopeId, x.cssInJs)
    ensures var lines := Lines(text);
      && |lines| >= 9
      && lines[1] == indent + "import script from '" + scriptUrl + "';"
      && lines[2] == indent + "import {render} from '" + renderUrl + "';"
      && lines[3] == indent + "script.render = render;"
      && (filename != "" <==> lines[4] != indent + ";")
      && (filename != "" ==> lines[4] == indent + "script.__file = '" + filename + "';")
      && (HasScoped(x.descriptor.styles) <==> lines[5] != indent + ";")
      && (HasScoped(x.descriptor.styles) ==> lines[5] == indent + "script.__scopeId = '" + ScopeIdOf(id) + "';")
      && lines[|lines| - 2] == indent + "export default script;"
  {
    ModuleShape(indent, scriptUrl, renderUrl, filename, x.scopeId, x.cssInJs);
  }

  /** Without style blocks the style line of the module holds only the indentation. */
  lemma ModuleLinesUnstyled(indent: string, scriptUrl: string, renderUrl: string, filename: string,
                            scopeId: Option<string>)
    requires '\n' !in indent && '\n' !in scriptUrl && '\n' !in renderUrl && '\n' !in filename
    requires scopeId.Some? ==> '\n' !in scopeId.value
    ensures |Lines(ModuleText(indent, scriptUrl, renderUrl, filename, scopeId, ""))| == 9
    ensures Lines(ModuleText(indent, scriptUrl, renderUrl, filename, scopeId, ""))[6] == indent
  {
    ModuleLines(indent, scriptUrl, renderUrl, filename, scopeId, "");
    assert indent + "" == indent;
    LinesOfLine(indent);
  }

  /**
    * The CSS of style `i` of a successful compile, after `cssPrefix`, sits in
    * the injected text at the offset of piece `i`, and comes from compiling
    * the `i`-th style block.
    */
  lemma CompiledCss(c: Compiler, comment: SourceMap -> string, cssPrefix: string,
                    source: string, filename: string, id: string, i: nat)
    requires Compile(c, comment, cssPrefix, source, filename, id).Ok?
    requires i < |Compile(c, comment, cssPrefix, source, filename, id).value.descriptor.styles|
    ensures var x := Compile(c, comment, cssPrefix, source, filename, id).value;
      var pieces := CssPieces(cssPrefix, x.styled);
      && x.cssInJs == CssInJs(Join(pieces, "\n"))
      && c.compileStyle(StyleRequest(id, x.descriptor.styles[i])) == Ok(x.styled[i])
      && OccursAt(Join(pieces, "\n"), Offset(pieces, "\n", i), cssPrefix + x.styled[i].code)
  {
    var x := Compile(c, comment, cssPrefix, source, filename, id).value;
    CssOrder(cssPrefix, x.styled, i);
  }

  /**
    * The CSS of style `i` (after the prefix) sits in the injected text at the
    * offset of piece `i`, and the next piece starts one newline after it:
    * the styles appear in source order.
    */
  lemma CssOrder(prefix: string, styled: seq<StyleResult>, i: nat)
    requires i < |styled|
    ensures var pieces := CssPieces(prefix, styled);
      && OccursAt(Join(pieces, "\n"), Offset(pieces, "\n", i), prefix + styled[i].code)
      && (i + 1 < |styled| ==>
            Offset(pieces, "\n", i + 1) == Offset(pieces, "\n", i) + |prefix| + |styled[i].code| + 1)
  {
    JoinAt(CssPieces(prefix, styled), "\n", i);
  }
}
