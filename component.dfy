/**
  * `makeComponent` of src/index.js: normalise the module name, rewrite the
  * image imports of the component source into imports of data-URI modules,
  * compile the result and hand back its blob URL, the raw component name
  * and the image modules.
  */
module Component {
  import opened Wrappers
  import opened Text
  import opened Sfc
  import UriCodec
  import Assembler

  /**
    * A piece of component source as `imageImportRegex` splits it: text it
    * does not match, or one match `m` with its binding `g1` and path `g2`.
    */
  datatype Segment =
    | Plain(text: string)
    | ImageImport(matched: string, binding: string, path: string)

  /** The source text a segment covers. */
  function Original(segment: Segment): string
  {
    if segment.Plain? then segment.text else segment.matched
  }

  /** The text a list of segments was split from. */
  function Source(segments: seq<Segment>): string
  {
    if |segments| == 0 then ""
    else Source(segments[..|segments| - 1]) + Original(segments[|segments| - 1])
  }

  /**
    * `matcher` splits every text into segments that put it back together:
    * `replace` keeps every character outside the matches.
    */
  ghost predicate Splits(matcher: string -> seq<Segment>)
  {
    forall s :: Source(matcher(s)) == s
  }

  /** How many image imports the segments hold. */
  function ImageCount(segments: seq<Segment>): nat
  {
    if |segments| == 0 then 0
    else ImageCount(segments[..|segments| - 1]) + (if segments[|segments| - 1].ImageImport? then 1 else 0)
  }

  /** `${imgId}_${k}`: the identifier of the `k`-th image import. */
  function ImageKey(imgId: string, k: nat): string
  {
    imgId + "_" + Decimal(k)
  }

  /** `import ${g1} from '${key}'; // ${m}`. */
  function Replacement(binding: string, key: string, matched: string): string
  {
    "import " + binding + " from '" + key + "'; // " + matched
  }

  /** What a segment becomes when the image imports before it number `k`. */
  function Piece(segment: Segment, imgId: string, k: nat): string
  {
    match segment
    case Plain(text) => text
    case ImageImport(matched, binding, _) => Replacement(binding, ImageKey(imgId, k), matched)
  }

  /** `vueSource.replace(imageImportRegex, ...)`: each match replaced, in order. */
  function Rewritten(segments: seq<Segment>, imgId: string): string
  {
    if |segments| == 0 then ""
    else
      var init := segments[..|segments| - 1];
      Rewritten(init, imgId) + Piece(segments[|segments| - 1], imgId, ImageCount(init))
  }

  /** The module that stands for an image: it exports the image's absolute URL. */
  function ImageModule(href: string): string
  {
    "data:text/javascript;base64," + UriCodec.ToBase64Text("export default '" + href + "'")
  }

  /** `imageMap` after the replacement: one entry per match, under its key. */
  function Images(segments: seq<Segment>, imgId: string, absSrc: string,
                  resolve: (string, string) -> string): map<string, string>
  {
    if |segments| == 0 then map[]
    else
      var init := segments[..|segments| - 1];
      var m := Images(init, imgId, absSrc, resolve);
      match segments[|segments| - 1]
      case Plain(_) => m
      case ImageImport(_, _, path) => m[ImageKey(imgId, ImageCount(init)) := ImageModule(resolve(path, absSrc))]
  }

  /**
    * The `replace` call with its callback: `imgIndex` counts the matches and
    * `imageMap` collects their modules. `resolve(path, base)` is
    * `new URL(path, base).href`.
    */
  method RewriteImages(segments: seq<Segment>, imgId: string, absSrc: string,
                       resolve: (string, string) -> string) returns (text: string, imageMap: map<string, string>)
    ensures text == Rewritten(segments, imgId)
    ensures imageMap == Images(segments, imgId, absSrc, resolve)
  {
    text, imageMap := "", map[];
    var imgIndex := 0;
    var i := 0;
    while i < |segments|
      invariant 0 <= i <= |segments|
      invariant imgIndex == ImageCount(segments[..i])
      invariant text == Rewritten(segments[..i], imgId)
      invariant imageMap == Images(segments[..i], imgId, absSrc, resolve)
    {
      assert segments[..i + 1][..i] == segments[..i];
      match segments[i] {
        case Plain(t) =>
          text := text + t;
        case ImageImport(m, g1, g2) =>
          var imgIdentifier := ImageKey(imgId, imgIndex);
          imgIndex := imgIndex + 1;
          imageMap := imageMap[imgIdentifier := ImageModule(resolve(g2, absSrc))];
          text := text + Replacement(g1, imgIdentifier, m);
      }
      i := i + 1;
    }
    assert segments[..i] == segments;
  }

  /** Different match numbers give different keys. */
  lemma ImageKeyInjective(imgId: string, j: nat, k: nat)
    requires ImageKey(imgId, j) == ImageKey(imgId, k)
    ensures j == k
  {
    var n := |imgId + "_"|;
    assert Decimal(j) == ImageKey(imgId, j)[n..];
    assert Decimal(k) == ImageKey(imgId, k)[n..];
    DecimalInjective(j, k);
  }

  /** `key` is the key of one of the first `n` matches. */
  predicate KeyBelow(imgId: string, n: nat, key: string)
  {
    exists k :: 0 <= k < n && key == ImageKey(imgId, k)
  }

  /**
    * `imageMap` holds exactly the keys `<imgId>_0` to `<imgId>_<n-1>` for
    * `n` matches: one fresh key per match, even for repeated paths.
    */
  lemma {:induction false} ImagesKeys(segments: seq<Segment>, imgId: string, absSrc: string,
                                      resolve: (string, string) -> string)
    ensures |Images(segments, imgId, absSrc, resolve)| == ImageCount(segments)
    ensures forall k :: 0 <= k < ImageCount(segments) ==> ImageKey(imgId, k) in Images(segments, imgId, absSrc, resolve)
    ensures forall key :: key in Images(segments, imgId, absSrc, resolve) ==> KeyBelow(imgId, ImageCount(segments), key)
  {
    if |segments| > 0 {
      var init := segments[..|segments| - 1];
      ImagesKeys(init, imgId, absSrc, resolve);
      if segments[|segments| - 1].ImageImport? {
        ImagesStep(Images(init, imgId, absSrc, resolve), imgId, ImageCount(init),
                   ImageModule(resolve(segments[|segments| - 1].path, absSrc)), Images(segments, imgId, absSrc, resolve));
      }
    }
  }

  /** Adding the key of match `n` to the keys of matches `0..n-1` adds one new key. */
  lemma ImagesStep(m: map<string, string>, imgId: string, n: nat, value: string, m': map<string, string>)
    requires |m| == n
    requires forall k :: 0 <= k < n ==> ImageKey(imgId, k) in m
    requires forall key :: key in m ==> KeyBelow(imgId, n, key)
    requires m' == m[ImageKey(imgId, n) := value]
    ensures |m'| == n + 1
    ensures forall k :: 0 <= k < n + 1 ==> ImageKey(imgId, k) in m'
    ensures forall key :: key in m' ==> KeyBelow(imgId, n + 1, key)
  {
    var newKey := ImageKey(imgId, n);
    if newKey in m {
      var k :| 0 <= k < n && newKey == ImageKey(imgId, k);
      ImageKeyInjective(imgId, k, n);
    }
    forall key | key in m' ensures KeyBelow(imgId, n + 1, key) {
      if key != newKey {
        var k :| 0 <= k < n && key == ImageKey(imgId, k);
      }
    }
  }

  /** The image imports among the first `i` segments never outnumber those among the first `j >= i`. */
  lemma {:induction false} ImageCountMonotone(segments: seq<Segment>, i: nat, j: nat)
    requires i <= j <= |segments|
    ensures ImageCount(segments[..i]) <= ImageCount(segments[..j])
    decreases j - i
  {
    if i < j {
      ImageCountMonotone(segments, i, j - 1);
      assert segments[..j][..j - 1] == segments[..j - 1];
    }
  }

  /** The `k`-th match (counting from 0) maps to the module of its own path. */
  lemma {:induction false} ImageAt(segments: seq<Segment>, imgId: string, absSrc: string,
                                   resolve: (string, string) -> string, i: nat)
    requires i < |segments| && segments[i].ImageImport?
    ensures ImageKey(imgId, ImageCount(segments[..i])) in Images(segments, imgId, absSrc, resolve)
    ensures Images(segments, imgId, absSrc, resolve)[ImageKey(imgId, ImageCount(segments[..i]))]
      == ImageModule(resolve(segments[i].path, absSrc))
  {
    var init := segments[..|segments| - 1];
    var m := Images(init, imgId, absSrc, resolve);
    var last := segments[|segments| - 1];
    var newKey := ImageKey(imgId, ImageCount(init));
    if i < |segments| - 1 {
      assert init[..i] == segments[..i];
      assert init[i] == segments[i];
      ImageAt(init, imgId, absSrc, resolve, i);
      if last.ImageImport? {
        assert Images(segments, imgId, absSrc, resolve) == m[newKey := ImageModule(resolve(last.path, absSrc))];
        ImageCountAfter(init, i);
        if newKey == ImageKey(imgId, ImageCount(segments[..i])) {
          ImageKeyInjective(imgId, ImageCount(init), ImageCount(segments[..i]));
        }
      } else {
        assert Images(segments, imgId, absSrc, resolve) == m;
      }
    } else {
      assert init == segments[..i];
    }
  }

  /** Segment `i`, an image import, is counted among the image imports of the whole sequence. */
  lemma ImageCountAfter(segments: seq<Segment>, i: nat)
    requires i < |segments| && segments[i].ImageImport?
    ensures ImageCount(segments[..i]) < ImageCount(segments)
  {
    assert segments[..i + 1][..i] == segments[..i];
    ImageCountMonotone(segments, i + 1, |segments|);
    assert segments[..|segments|] == segments;
  }

  /**
    * Segment `i` appears in the rewritten text right after the rewrite of
    * the segments before it, as its `Piece`: text outside the matches is
    * kept as it is, and the `k`-th match becomes
    * `import <binding> from '<imgId>_k'; // <match>`.
    */
  lemma {:induction false} RewrittenPiece(segments: seq<Segment>, imgId: string, i: nat)
    requires i < |segments|
    ensures OccursAt(Rewritten(segments, imgId), |Rewritten(segments[..i], imgId)|,
                     Piece(segments[i], imgId, ImageCount(segments[..i])))
  {
    var init := segments[..|segments| - 1];
    var r := Rewritten(init, imgId);
    var last := Piece(segments[|segments| - 1], imgId, ImageCount(init));
    assert Rewritten(segments, imgId) == r + last;
    if i < |segments| - 1 {
      assert init[..i] == segments[..i];
      assert init[i] == segments[i];
      RewrittenPiece(init, imgId, i);
      OccursInLeft(r, last, |Rewritten(segments[..i], imgId)|, Piece(segments[i], imgId, ImageCount(segments[..i])));
    } else {
      assert segments[..i] == init;
      OccursOperands(r, last);
    }
  }

  /**
    * Segment `i` covers the part of the source right after the segments
    * before it: the segments cut the source into consecutive pieces.
    */
  lemma {:induction false} SourcePiece(segments: seq<Segment>, i: nat)
    requires i < |segments|
    ensures OccursAt(Source(segments), |Source(segments[..i])|, Original(segments[i]))
  {
    var init := segments[..|segments| - 1];
    var r := Source(init);
    var last := Original(segments[|segments| - 1]);
    assert Source(segments) == r + last;
    if i < |segments| - 1 {
      assert init[..i] == segments[..i];
      assert init[i] == segments[i];
      SourcePiece(init, i);
      OccursInLeft(r, last, |Source(segments[..i])|, Original(segments[i]));
    } else {
      assert segments[..i] == init;
      OccursOperands(r, last);
    }
  }

  /** Source without image imports is passed to the compiler unchanged. */
  lemma {:induction false} NoImagesUnchanged(segments: seq<Segment>, imgId: string)
    requires ImageCount(segments) == 0
    ensures Rewritten(segments, imgId) == Source(segments)
  {
    if |segments| > 0 {
      NoImagesUnchanged(segments[..|segments| - 1], imgId);
    }
  }

  /**
    * `moduleName`: the `component` attribute with `.vue` appended unless
    * `/\.vue$/` matches; a missing attribute reads as `null`.
    */
  function NormaliseName(component: Option<string>): (r: string)
    ensures EndsWith(r, ".vue")
    ensures component.Some? && EndsWith(component.value, ".vue") ==> r == component.value
    ensures component.Some? && !EndsWith(component.value, ".vue") ==> r == component.value + ".vue"
    ensures component.None? ==> r == "null.vue"
  {
    var name := if component.Some? then component.value else "null";
    if EndsWith(name, ".vue") then name else name + ".vue"
  }

  /** Normalising a normalised name changes nothing. */
  lemma NormaliseIdempotent(component: Option<string>)
    ensures NormaliseName(Some(NormaliseName(component))) == NormaliseName(component)
  {
  }

  /** What the page provides: the compiler, `JSON.stringify`, `getBlobURL`, URL resolution and `location.href`. */
  datatype Host = Host(
    compiler: Compiler,
    stringify: SourceMap -> string,
    blobUrl: string -> string,
    resolve: (string, string) -> string,
    location: string)

  /** `[url, module, imageMap]` (`module` being the raw component name), or `[]` for an element without a component name. */
  datatype Made =
    | Skipped
    | Made(url: string, component: string, imageMap: map<string, string>)

  /** The absolute URL of the component source: `src` resolved against the page, or the page itself. */
  function AbsSrc(host: Host, src: Option<string>): string
  {
    if src.Some? && src.value != "" then host.resolve(src.value, host.location) else host.location
  }

  /** `vueSource`: the fetched text when the element has a `src`, else its inner HTML. */
  function VueSource(attrs: map<string, string>, inner: string, fetched: string): string
  {
    if "src" in attrs then fetched else inner
  }

  /**
    * The outcome of `makeComponent` of an element with attributes `attrs`
    * and inner HTML `inner`; `fetched` is the text of its `src`, `matcher`
    * is `imageImportRegex`, `imgId` and `id` the two generated ids.
    */
  function Outcome(host: Host, attrs: map<string, string>, inner: string, fetched: string,
                   matcher: string -> seq<Segment>, imgId: string, id: string): Result<Made, Failure>
    requires Splits(matcher)
  {
    var component := if "component" in attrs then Some(attrs["component"]) else None;
    if component.None? || component.value == "" then Ok(Skipped)
    else
      var vueSource := VueSource(attrs, inner, fetched);
      var segments := matcher(vueSource);
      var src := if "src" in attrs then Some(attrs["src"]) else None;
      var mount := if "mount" in attrs then Some(attrs["mount"]) else None;
      var absSrc := AbsSrc(host, src);
      var rewritten := Rewritten(segments, imgId);
      match Assembler.TransformVueSfc(host.compiler, host.stringify, host.blobUrl, rewritten,
                                      NormaliseName(component), mount, id)
      case Err(e) => Err(e)
      case Ok(code) => Ok(Made(host.blobUrl(code), component.value, Images(segments, imgId, absSrc, host.resolve)))
  }

  /**
    * An element whose source holds no image import has that source itself
    * compiled, and contributes no image modules.
    */
  lemma OutcomeNoImages(host: Host, attrs: map<string, string>, inner: string, fetched: string,
                        matcher: string -> seq<Segment>, imgId: string, id: string)
    requires Splits(matcher)
    requires "component" in attrs && attrs["component"] != ""
    requires ImageCount(matcher(VueSource(attrs, inner, fetched))) == 0
    ensures var t := Assembler.TransformVueSfc(host.compiler, host.stringify, host.blobUrl,
                                               VueSource(attrs, inner, fetched), NormaliseName(Some(attrs["component"])),
                                               if "mount" in attrs then Some(attrs["mount"]) else None, id);
      && (t.Err? ==> Outcome(host, attrs, inner, fetched, matcher, imgId, id) == Err(t.error))
      && (t.Ok? ==> Outcome(host, attrs, inner, fetched, matcher, imgId, id) == Ok(Made(host.blobUrl(t.value), attrs["component"], map[])))
  {
    var vueSource := VueSource(attrs, inner, fetched);
    var segments := matcher(vueSource);
    var src := if "src" in attrs then Some(attrs["src"]) else None;
    var absSrc := AbsSrc(host, src);
    NoImagesUnchanged(segments, imgId);
    assert Rewritten(segments, imgId) == vueSource;
    ImagesKeys(segments, imgId, absSrc, host.resolve);
    var images := Images(segments, imgId, absSrc, host.resolve);
    assert images == map[];
  }

  /** A `<noscript type="vue-sfc">` element. */
  class Element {
    var attributes: map<string, string>
    const innerHTML: string

    constructor(attributes: map<string, string>, innerHTML: string)
      ensures this.attributes == attributes && this.innerHTML == innerHTML
    {
      this.attributes := attributes;
      this.innerHTML := innerHTML;
    }

    /**
      * `makeComponent(el)`: set the `module` attribute to the normalised
      * name, and, when there is a component name, rewrite, compile and
      * return the component.
      */
    method MakeComponent(host: Host, fetched: string, matcher: string -> seq<Segment>,
                         imgId: string, id: string) returns (r: Result<Made, Failure>)
      requires Splits(matcher)
      modifies this
      ensures attributes == old(attributes)["module" := NormaliseName(
        if "component" in old(attributes) then Some(old(attributes)["component"]) else None)]
      ensures r == Outcome(host, old(attributes), innerHTML, fetched, matcher, imgId, id)
    {
      var component := if "component" in attributes then Some(attributes["component"]) else None;
      var moduleName := NormaliseName(component);
      var before := attributes;
      attributes := attributes["module" := moduleName];
      if component.None? || component.value == "" {
        return Ok(Skipped);
      }
      var vueSource := VueSource(before, innerHTML, fetched);
      var src := if "src" in before then Some(before["src"]) else None;
      var absSrc := AbsSrc(host, src);
      var text, imageMap := RewriteImages(matcher(vueSource), imgId, absSrc, host.resolve);
      var mount := if "mount" in before then Some(before["mount"]) else None;
      var compiled := Assembler.TransformVueSfc(host.compiler, host.stringify, host.blobUrl, text, moduleName, mount, id);
      if compiled.Err? {
        return Err(compiled.error);
      }
      return Ok(Made(host.blobUrl(compiled.value), component.value, imageMap));
    }
  }
}
