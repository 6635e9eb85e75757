/**
  * `transformVueSFC` of src/index.js: the component compiled on the page,
  * with source maps inlined through `toBase64`, every style prefixed by the
  * mount selector, and the script and render function imported from blob
  * URLs.
  */
module Assembler {
  import opened Wrappers
  import opened Text
  import opened Sfc
  import Utf8
  import Base64
  import Utf16
  import UriCodec

  /** The indentation of the module template literal. */
  const INDENT: string := "  "

  const MAP_URL_PREFIX: string := "\n//# sourceMappingURL=data:application/json;base64,"

  /** The comment after compiled code: a data URL carrying `toBase64` of the JSON text. */
  function MapComment(json: string): string
  {
    MAP_URL_PREFIX + UriCodec.ToBase64Text(json)
  }

  /** The payload of the comment decodes, as base 64 and then as UTF-8, back to the JSON text. */
  lemma MapCommentReadable(json: string)
    ensures |MAP_URL_PREFIX| <= |MapComment(json)| && MapComment(json)[..|MAP_URL_PREFIX|] == MAP_URL_PREFIX
    ensures Base64.Decode(MapComment(json)[|MAP_URL_PREFIX|..]) == Some(Utf8.Encode(json))
    ensures Utf8.Decode(Utf8.Encode(json)) == Some(json)
  {
    UriCodec.Utf8Base64RoundTrip(json);
    assert MapComment(json)[|MAP_URL_PREFIX|..] == UriCodec.Utf8Base64(json);
  }

  /** Code followed by a map comment: the code, the comment head, then the readable payload. */
  lemma ReadableAfter(code: string, json: string)
    ensures var t, n := code + MapComment(json), |code| + |MAP_URL_PREFIX|;
      && n <= |t|
      && t[..n] == code + MAP_URL_PREFIX
      && Base64.Decode(t[n..]) == Some(Utf8.Encode(json))
  {
    var payload := UriCodec.ToBase64Text(json);
    CutAfter(code, MAP_URL_PREFIX, payload);
    UriCodec.Utf8Base64RoundTrip(json);
  }

  /** `${mountname}` of an attribute that may be missing. */
  function Template(value: Option<string>): string
  {
    if value.Some? then value.value else "null"
  }

  /** The pipeline of this file: its map comment and its CSS prefix. */
  function Compiled(c: Compiler, json: SourceMap -> string, source: string, filename: string,
                    mountname: Option<string>, id: string): Result<Sfc.Compiled, Failure>
  {
    Compile(c, m => MapComment(json(m)), Template(mountname) + " ", source, filename, id)
  }

  /**
    * The module that `transformVueSFC(source, filename, mountname)` returns,
    * or the exception it throws; `id` is what `generateID` gave, `json` is
    * `JSON.stringify` and `blobUrl` is `getBlobURL`.
    */
  function TransformVueSfc(c: Compiler, json: SourceMap -> string, blobUrl: string -> string,
                           source: string, filename: string, mountname: Option<string>, id: string): Result<string, Failure>
  {
    match Compiled(c, json, source, filename, mountname, id)
    case Err(e) => Err(e)
    case Ok(x) =>
      Ok(ModuleText(INDENT, blobUrl(x.script.content), blobUrl(x.template.code), filename, x.scopeId, x.cssInJs))
  }

  /**
    * The returned module, line by line: the blob URLs of the compiled script
    * and render code, `__file` exactly when a file name is given,
    * `__scopeId` exactly when some style is scoped, then the styles.
    */
  lemma TransformLines(c: Compiler, json: SourceMap -> string, blobUrl: string -> string,
                       source: string, filename: string, mountname: Option<string>, id: string)
    requires TransformVueSfc(c, json, blobUrl, source, filename, mountname, id).Ok?
    requires forall code :: '\n' !in blobUrl(code)
    requires '\n' !in filename && '\n' !in id
    ensures var x := Compiled(c, json, source, filename, mountname, id).value;
      var lines := Lines(TransformVueSfc(c, json, blobUrl, source, filename, mountname, id).value);
      && |lines| >= 9
      && lines[1] == INDENT + "import script from '" + blobUrl(x.script.content) + "';"
      && lines[2] == INDENT + "import {render} from '" + blobUrl(x.template.code) + "';"
      && lines[3] == INDENT + "script.render = render;"
      && (filename != "" <==> lines[4] != INDENT + ";")
      && (filename != "" ==> lines[4] == INDENT + "script.__file = '" + filename + "';")
      && (HasScoped(x.descriptor.styles) <==> lines[5] != INDENT + ";")
      && (HasScoped(x.descriptor.styles) ==> lines[5] == INDENT + "script.__scopeId = '" + ScopeIdOf(id) + "';")
      && lines[|lines| - 2] == INDENT + "export default script;"
  {
    var x := Compiled(c, json, source, filename, mountname, id).value;
    CompiledShape(INDENT, blobUrl(x.script.content), blobUrl(x.template.code), filename, id, x,
                  TransformVueSfc(c, json, blobUrl, source, filename, mountname, id).value);
  }

  /** A component without style blocks gives a module of nine lines whose style line is blank. */
  lemma TransformUnstyled(c: Compiler, json: SourceMap -> string, blobUrl: string -> string,
                          source: string, filename: string, mountname: Option<string>, id: string)
    requires TransformVueSfc(c, json, blobUrl, source, filename, mountname, id).Ok?
    requires |Compiled(c, json, source, filename, mountname, id).value.descriptor.styles| == 0
    requires forall code :: '\n' !in blobUrl(code)
    requires '\n' !in filename && '\n' !in id
    ensures var lines := Lines(TransformVueSfc(c, json, blobUrl, source, filename, mountname, id).value);
      |lines| == 9 && lines[6] == INDENT
  {
    var x := Compiled(c, json, source, filename, mountname, id).value;
    var u1, u2 := blobUrl(x.script.content), blobUrl(x.template.code);
    assert x.cssInJs == "";
    ModuleLinesUnstyled(INDENT, u1, u2, filename, x.scopeId);
  }

  /**
    * A script with a source map ends with the map comment, whose payload
    * decodes back to `JSON.stringify(script.map)`.
    */
  lemma ScriptMapReadable(c: Compiler, json: SourceMap -> string, source: string, filename: string,
                          mountname: Option<string>, id: string)
    requires Compiled(c, json, source, filename, mountname, id).Ok?
    requires Compiled(c, json, source, filename, mountname, id).value.scriptOut.sourceMap.Some?
    ensures var x := Compiled(c, json, source, filename, mountname, id).value;
      var text := json(x.scriptOut.sourceMap.value);
      var n := |x.scriptOut.content| + |MAP_URL_PREFIX|;
      && n <= |x.script.content|
      && x.script.content[..n] == x.scriptOut.content + MAP_URL_PREFIX
      && Base64.Decode(x.script.content[n..]) == Some(Utf8.Encode(text))
      && Utf8.Decode(Utf8.Encode(text)) == Some(text)
  {
    var x := Compiled(c, json, source, filename, mountname, id).value;
    var text := json(x.scriptOut.sourceMap.value);
    assert x.script.content == x.scriptOut.content + MapComment(text);
    ReadableAfter(x.scriptOut.content, text);
    UriCodec.Utf8Base64RoundTrip(text);
  }

  /**
    * A template with a source map is tagged `?template` and ends with the
    * map comment of the tagged map.
    */
  lemma TemplateMapReadable(c: Compiler, json: SourceMap -> string, source: string, filename: string,
                            mountname: Option<string>, id: string)
    requires Compiled(c, json, source, filename, mountname, id).Ok?
    requires Compiled(c, json, source, filename, mountname, id).value.templateOut.sourceMap.Some?
    ensures var x := Compiled(c, json, source, filename, mountname, id).value;
      var tagged := x.template.sourceMap.value;
      var n := |x.templateOut.code| + |MAP_URL_PREFIX|;
      && x.template.sourceMap.Some?
      && EndsWith(tagged.sources[0], "?template")
      && n <= |x.template.code|
      && x.template.code[..n] == x.templateOut.code + MAP_URL_PREFIX
      && Base64.Decode(x.template.code[n..]) == Some(Utf8.Encode(json(tagged)))
  {
    var x := Compiled(c, json, source, filename, mountname, id).value;
    var m := x.templateOut.sourceMap.value;
    assert x.template.sourceMap == Some(TagTemplateMap(m));
    assert x.template.code == x.templateOut.code + MapComment(json(TagTemplateMap(m)));
    ReadableAfter(x.templateOut.code, json(TagTemplateMap(m)));
    EndsWithAppend(if |m.sources| == 0 then "undefined" else m.sources[0], "?template");
  }

  /**
    * Each style block's CSS appears in the injected `<style>` text in source
    * order, after the mount selector (`null` when there is no mount
    * attribute) and a space.
    */
  lemma StylesAfterMountPrefix(c: Compiler, json: SourceMap -> string, source: string, filename: string,
                            mountname: Option<string>, id: string, i: nat)
    requires Compiled(c, json, source, filename, mountname, id).Ok?
    requires i < |Compiled(c, json, source, filename, mountname, id).value.descriptor.styles|
    ensures var x := Compiled(c, json, source, filename, mountname, id).value;
      var prefix := Template(mountname) + " ";
      var pieces := CssPieces(prefix, x.styled);
      && x.cssInJs == CssInJs(Join(pieces, "\n"))
      && c.compileStyle(StyleRequest(id, x.descriptor.styles[i])) == Ok(x.styled[i])
      && OccursAt(Join(pieces, "\n"), Offset(pieces, "\n", i), prefix + x.styled[i].code)
  {
    CompiledCss(c, m => MapComment(json(m)), Template(mountname) + " ", source, filename, id, i);
  }
}
