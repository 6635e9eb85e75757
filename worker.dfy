/**
  * src/compiler.worker.js: the same compilation run in a web worker. Source
  * maps and the compiled parts are inlined as base 64 data URIs that
  * `FileReader` produces, styles carry no prefix, and the worker answers a
  * message with the data URI of the module, or with nothing when the
  * transform throws.
  */
module Worker {
  import opened Wrappers
  import opened Text
  import opened Sfc
  import Utf8
  import Base64
  import UriCodec
  import Assembler

  /** The indentation of the module template literal. */
  const INDENT: string := "    "

  const JS_MIME: string := "application/javascript"

  const JSON_MIME: string := "application/json"

  /**
    * `blobToDataUri(new Blob([text], {type: mime}))`: the blob holds the
    * UTF-8 of the text, and the data URL carries it in base 64.
    */
  function DataUri(mime: string, text: string): string
  {
    "data:" + mime + ";base64," + UriCodec.Utf8Base64(text)
  }

  /** The payload of a data URI decodes, as base 64 and then as UTF-8, back to the text. */
  lemma DataUriReadable(mime: string, text: string)
    ensures var head := "data:" + mime + ";base64,";
      && |head| <= |DataUri(mime, text)| && DataUri(mime, text)[..|head|] == head
      && Base64.Decode(DataUri(mime, text)[|head|..]) == Some(Utf8.Encode(text))
      && Utf8.Decode(Utf8.Encode(text)) == Some(text)
  {
    UriCodec.Utf8Base64RoundTrip(text);
    var head := "data:" + mime + ";base64,";
    assert DataUri(mime, text)[|head|..] == UriCodec.Utf8Base64(text);
  }

  /** `toJsDataUri(raw)`. */
  function JsDataUri(code: string): string
  {
    DataUri(JS_MIME, code)
  }

  /** `toSourcemapComment(obj)`, given `JSON.stringify(obj)`. */
  function SourcemapComment(json: string): string
  {
    "\n//# sourceMappingURL=" + DataUri(JSON_MIME, json)
  }

  /** The pipeline of this file: data-URI map comments and unprefixed CSS. */
  function Compiled(c: Compiler, json: SourceMap -> string, id: string, source: string,
                    filename: string): Result<Sfc.Compiled, Failure>
  {
    Compile(c, m => SourcemapComment(json(m)), "", source, filename, id)
  }

  /** The module that `transformVueSFC(id, source, filename)` resolves to, or the exception it rejects with. */
  function TransformVueSfc(c: Compiler, json: SourceMap -> string, id: string, source: string,
                           filename: string): Result<string, Failure>
  {
    match Compiled(c, json, id, source, filename)
    case Err(e) => Err(e)
    case Ok(x) =>
      Ok(ModuleText(INDENT, JsDataUri(x.script.content), JsDataUri(x.template.code), filename, x.scopeId, x.cssInJs))
  }

  /** A JavaScript data URI sits on one line and inside a quoted string. */
  lemma JsDataUriInert(code: string)
    ensures '\n' !in JsDataUri(code) && '\'' !in JsDataUri(code)
  {
    var head := "data:" + JS_MIME + ";base64,";
    UriCodec.Utf8Base64Inert(code);
    assert JsDataUri(code) == head + UriCodec.Utf8Base64(code);
    assert '\n' !in head && '\'' !in head;
  }

  /** The comment head the worker puts together is the page's literal one. */
  lemma SamePrefix()
    ensures "\n//# sourceMappingURL=" + ("data:" + JSON_MIME + ";base64,") == Assembler.MAP_URL_PREFIX
  {
    var a, b := "\n//# sourceMappingURL=", "data:" + JSON_MIME + ";base64,";
    var prefix := Assembler.MAP_URL_PREFIX;
    assert |a + b| == |prefix|;
    forall i | 0 <= i < |a + b| ensures (a + b)[i] == prefix[i] { }
  }

  /**
    * The worker's map comment is, character for character, the one the
    * page builds with `toBase64`.
    */
  lemma SameMapComment(json: string)
    ensures SourcemapComment(json) == Assembler.MapComment(json)
  {
    SamePrefix();
    var payload := UriCodec.Utf8Base64(json);
    assert DataUri(JSON_MIME, json) == "data:" + JSON_MIME + ";base64," + payload;
    ConcatAssoc("\n//# sourceMappingURL=", "data:" + JSON_MIME + ";base64,", payload);
  }

  /**
    * The worker compiles a component exactly as the page does: same
    * failures, same compiler calls, same script and template code; only the
    * prefix of the injected CSS differs.
    */
  lemma CompilesLikePage(c: Compiler, json: SourceMap -> string, id: string, source: string,
                         filename: string, mountname: Option<string>)
    ensures Compiled(c, json, id, source, filename).Err? == Assembler.Compiled(c, json, source, filename, mountname, id).Err?
    ensures Compiled(c, json, id, source, filename).Err? ==>
      Compiled(c, json, id, source, filename).error == Assembler.Compiled(c, json, source, filename, mountname, id).error
    ensures Compiled(c, json, id, source, filename).Ok? ==>
      Compiled(c, json, id, source, filename).value.(cssInJs := "")
      == Assembler.Compiled(c, json, source, filename, mountname, id).value.(cssInJs := "")
  {
    var workerComment: SourceMap -> string := m => SourcemapComment(json(m));
    var pageComment: SourceMap -> string := m => Assembler.MapComment(json(m));
    forall m ensures workerComment(m) == pageComment(m) {
      SameMapComment(json(m));
    }
    CompileAgree(c, workerComment, pageComment, "", Assembler.Template(mountname) + " ", source, filename, id);
  }

  /** The worker's module, line by line, as the page's but with its own URLs and indentation. */
  lemma TransformLines(c: Compiler, json: SourceMap -> string, id: string, source: string, filename: string)
    requires TransformVueSfc(c, json, id, source, filename).Ok?
    requires '\n' !in filename && '\n' !in id
    ensures var x := Compiled(c, json, id, source, filename).value;
      var lines := Lines(TransformVueSfc(c, json, id, source, filename).value);
      && |lines| >= 9
      && lines[1] == INDENT + "import script from '" + JsDataUri(x.script.content) + "';"
      && lines[2] == INDENT + "import {render} from '" + JsDataUri(x.template.code) + "';"
      && lines[3] == INDENT + "script.render = render;"
      && (filename != "" <==> lines[4] != INDENT + ";")
      && (filename != "" ==> lines[4] == INDENT + "script.__file = '" + filename + "';")
      && (HasScoped(x.descriptor.styles) <==> lines[5] != INDENT + ";")
      && (HasScoped(x.descriptor.styles) ==> lines[5] == INDENT + "script.__scopeId = '" + ScopeIdOf(id) + "';")
      && lines[|lines| - 2] == INDENT + "export default script;"
  {
    var x := Compiled(c, json, id, source, filename).value;
    JsDataUriInert(x.script.content);
    JsDataUriInert(x.template.code);
    CompiledShape(INDENT, JsDataUri(x.script.content), JsDataUri(x.template.code), filename, id, x,
                  TransformVueSfc(c, json, id, source, filename).value);
  }

  /** The worker's global scope, seen through the messages it posts back. */
  class WorkerScope {
    var posted: seq<string>

    constructor()
      ensures posted == []
    {
      posted := [];
    }

    /**
      * `self.onmessage` for `event.data == [id, source, filename]`: post
      * the data URI of the module; a thrown exception is swallowed and
      * nothing is posted.
      */
    method OnMessage(c: Compiler, json: SourceMap -> string, id: string, source: string, filename: string)
      modifies this
      ensures TransformVueSfc(c, json, id, source, filename).Ok? ==>
        posted == old(posted) + [JsDataUri(TransformVueSfc(c, json, id, source, filename).value)]
      ensures TransformVueSfc(c, json, id, source, filename).Err? ==> posted == old(posted)
    {
      var result := TransformVueSfc(c, json, id, source, filename);
      if result.Ok? {
        posted := posted + [JsDataUri(result.value)];
      }
    }
  }
}
