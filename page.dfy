/**
  * `setup` of src/index.js: collect the finished components, refuse to run
  * over an existing import map, merge the import map (defaults, then the
  * `sfc-importmap` script, then the components) and install it, then append
  * the module script that mounts every component with a `mount` selector.
  */
module Page {
  import opened Wrappers
  import opened Text
  import opened Sfc
  import opened Component

  type Scope = map<string, string>

  const VUE_URL: string := "https://unpkg.com/vue@3/dist/vue.esm-browser.js"

  const IMPORT_MAP_SET: string := "Cannot setup after importmap is set. Use <script type=\"sfc-importmap\"> instead."

  /** A `makeComponent` call that has settled, with the element's `mount` attribute if it has one. */
  datatype Finished = Finished(mount: Option<string>, outcome: Result<Made, Failure>)

  /** What `JSON.parse` makes of the `sfc-importmap` script, if there is one. */
  datatype ExternalMap =
    | Absent
    | Malformed                       // `JSON.parse` throws a SyntaxError
    | Null                            // `externalMap.imports` throws a TypeError
    | MapObject(imports: Option<map<string, string>>, scopes: Option<map<string, Scope>>)

  datatype SetupError =
    | ComponentFailed(failure: Failure)
    | ImportMapAlreadySet(message: string)
    | ExternalMapSyntaxError
    | ExternalMapNull

  /** A script element that setup puts into the document. */
  datatype Insertion =
    | ImportMapScript(imports: map<string, string>, scopes: map<string, Scope>)   // after the current script
    | ModuleScript(text: string)                                                 // at the end of the body

  /** `${module}` of a settled component: its name, or `undefined` for `[]`. */
  function ModuleRef(made: Made): string
  {
    if made.Made? then made.component else "undefined"
  }

  /** The import-map entries one settled component adds: its URL under its name, then its images. */
  function Written(f: Finished): map<string, string>
  {
    match f.outcome
    case Ok(Made(url, component, images)) => (if url != "" then map[component := url] else map[]) + images
    case _ => map[]
  }

  /** `importMap` after the callbacks of `finished` have run, in that order. */
  function Entries(finished: seq<Finished>): map<string, string>
  {
    if |finished| == 0 then map[]
    else Entries(finished[..|finished| - 1]) + Written(finished[|finished| - 1])
  }

  /** What one settled component pushes onto `mount`. */
  function Pushed(f: Finished): seq<(string, string)>
  {
    if f.mount.Some? && f.outcome.Ok? then [(ModuleRef(f.outcome.value), f.mount.value)] else []
  }

  /** `mount` after the callbacks of `finished` have run. */
  function Mounts(finished: seq<Finished>): seq<(string, string)>
  {
    if |finished| == 0 then []
    else Mounts(finished[..|finished| - 1]) + Pushed(finished[|finished| - 1])
  }

  /** The rejection `Promise.all` settles with: the first component to fail. */
  function FirstFailure(finished: seq<Finished>): Option<Failure>
  {
    if |finished| == 0 then None
    else
      var before := FirstFailure(finished[..|finished| - 1]);
      if before.Some? then before
      else if finished[|finished| - 1].outcome.Err? then Some(finished[|finished| - 1].outcome.error)
      else None
  }

  /**
    * Merging what a component writes is the callback's own steps: set its
    * URL under its name unless the URL is empty, then merge its images;
    * a failed or skipped component writes nothing.
    */
  lemma WrittenMerged(m: map<string, string>, f: Finished)
    ensures (f.outcome.Err? || f.outcome.value.Skipped?) ==> m + Written(f) == m
    ensures f.outcome.Ok? && f.outcome.value.Made? && f.outcome.value.url != "" ==>
      m + Written(f) == m[f.outcome.value.component := f.outcome.value.url] + f.outcome.value.imageMap
    ensures f.outcome.Ok? && f.outcome.value.Made? && f.outcome.value.url == "" ==>
      m + Written(f) == m + f.outcome.value.imageMap
  {
    if f.outcome.Ok? && f.outcome.value.Made? {
      var made := f.outcome.value;
      if made.url != "" {
        assert m[made.component := made.url] + made.imageMap == m + (map[made.component := made.url] + made.imageMap);
      } else {
        assert map[] + made.imageMap == made.imageMap;
      }
    } else {
      assert Written(f) == map[];
    }
  }

  /** The `Promise.all` step: run each settled component's callback in completion order. */
  method Collect(finished: seq<Finished>) returns (importMap: map<string, string>, mount: seq<(string, string)>,
                                                 failure: Option<Failure>)
    ensures importMap == Entries(finished)
    ensures mount == Mounts(finished)
    ensures failure == FirstFailure(finished)
  {
    importMap, mount, failure := map[], [], None;
    var i := 0;
    while i < |finished|
      invariant 0 <= i <= |finished|
      invariant importMap == Entries(finished[..i])
      invariant mount == Mounts(finished[..i])
      invariant failure == FirstFailure(finished[..i])
    {
      var f := finished[i];
      assert finished[..i + 1][..i] == finished[..i];
      WrittenMerged(importMap, f);
      match f.outcome {
        case Err(e) =>
          if failure.None? {
            failure := Some(e);
          }
        case Ok(made) =>
          if f.mount.Some? {
            mount := mount + [(ModuleRef(made), f.mount.value)];
          }
          if made.Made? {
            if made.url != "" {
              importMap := importMap[made.component := made.url];
            }
            importMap := importMap + made.imageMap;
          }
      }
      i := i + 1;
    }
    assert finished[..i] == finished;
  }

  const CREATE_APP_IMPORT: string := "      import {createApp} from 'vue';"

  /** The import line of app `i`. */
  function AppImport(i: nat, moduleName: string): string
  {
    "    import App" + Decimal(i) + " from '" + moduleName + "';"
  }

  /** The mount line of app `i`. */
  function AppMount(i: nat, selector: string): string
  {
    "    createApp(App" + Decimal(i) + ").mount('" + selector + "');"
  }

  /** `mount.map((item, index) => ...).join('')`, the items numbered from `start`. */
  function Apps(mounts: seq<(string, string)>, start: nat): string
  {
    if |mounts| == 0 then ""
    else "\n" + AppImport(start, mounts[0].0) + "\n" + AppMount(start, mounts[0].1) + Apps(mounts[1..], start + 1)
  }

  /** The text of the bootstrap module script. */
  function Bootstrap(mounts: seq<(string, string)>): string
  {
    Join(["", CREATE_APP_IMPORT] + ["      " + Apps(mounts, 0)] + ["    "], "\n")
  }

  /** The lines the apps contribute: an import line and a mount line each. */
  function AppLines(mounts: seq<(string, string)>, start: nat): seq<string>
  {
    if |mounts| == 0 then []
    else [AppImport(start, mounts[0].0), AppMount(start, mounts[0].1)] + AppLines(mounts[1..], start + 1)
  }

  predicate OneLine(mounts: seq<(string, string)>)
  {
    forall i :: 0 <= i < |mounts| ==> '\n' !in mounts[i].0 && '\n' !in mounts[i].1
  }

  lemma AppLinesOneLine(i: nat, moduleName: string, selector: string)
    requires '\n' !in moduleName && '\n' !in selector
    ensures '\n' !in AppImport(i, moduleName) && '\n' !in AppMount(i, selector)
  {
    var d := Decimal(i);
    assert '\n' !in d by {
      forall k | 0 <= k < |d| ensures d[k] != '\n' {
        assert IsDigit(d[k]);
      }
    }
    var a, b, c := "    import App", " from '", "';";
    assert '\n' !in a && '\n' !in b && '\n' !in c;
    assert AppImport(i, moduleName) == a + d + b + moduleName + c;
    var e, f, g := "    createApp(App", ").mount('", "');";
    assert '\n' !in e && '\n' !in f && '\n' !in g;
    assert AppMount(i, selector) == e + d + f + selector + g;
  }

  lemma AppsUnfold(before: string, mounts: seq<(string, string)>, start: nat)
    requires |mounts| > 0
    ensures before + Apps(mounts, start) == before + "\n" + (AppImport(start, mounts[0].0) + "\n"
      + (AppMount(start, mounts[0].1) + Apps(mounts[1..], start + 1)))
  {
    var nl := "\n";
    var a, b := AppImport(start, mounts[0].0), AppMount(start, mounts[0].1);
    var r := Apps(mounts[1..], start + 1);
    assert Apps(mounts, start) == nl + a + nl + b + r;
    ConcatAssoc(nl + a + nl, b, r);
    ConcatAssoc(nl + a, nl, b + r);
    ConcatAssoc(nl, a, nl + (b + r));
    ConcatAssoc(a, nl, b + r);
    ConcatAssoc(before, nl, a + nl + (b + r));
    ConcatAssoc(before, nl + a + nl + b, r);
  }

  lemma {:induction false} AppsLines(before: string, mounts: seq<(string, string)>, start: nat)
    requires OneLine(mounts)
    ensures Lines(before + Apps(mounts, start)) == Lines(before) + AppLines(mounts, start)
    decreases |mounts|
  {
    if |mounts| == 0 {
      assert before + Apps(mounts, start) == before;
    } else {
      var imp, mnt := AppImport(start, mounts[0].0), AppMount(start, mounts[0].1);
      var rest := Apps(mounts[1..], start + 1);
      OneLineTail(mounts);
      AppsLines(mnt, mounts[1..], start + 1);
      AppsUnfold(before, mounts, start);
      AppLinesOneLine(start, mounts[0].0, mounts[0].1);
      LinesOfLine(mnt);
      AppsLinesStep(before, imp, mnt, rest, AppLines(mounts[1..], start + 1));
    }
  }

  lemma AppsLinesStep(before: string, imp: string, mnt: string, rest: string, tail: seq<string>)
    requires '\n' !in imp
    requires Lines(mnt + rest) == Lines(mnt) + tail && Lines(mnt) == [mnt]
    ensures Lines(before + "\n" + (imp + "\n" + (mnt + rest))) == Lines(before) + ([imp, mnt] + tail)
  {
    LinesAppend(before, imp + "\n" + (mnt + rest));
    LinesAppend(imp, mnt + rest);
    LinesOfLine(imp);
    ConcatAssoc([imp], [mnt], tail);
    ConcatAssoc(Lines(before), [imp], [mnt] + tail);
  }

  lemma OneLineTail(mounts: seq<(string, string)>)
    requires |mounts| > 0 && OneLine(mounts)
    ensures OneLine(mounts[1..])
  {
    forall i | 0 <= i < |mounts[1..]| ensures '\n' !in mounts[1..][i].0 && '\n' !in mounts[1..][i].1 {
      assert mounts[1..][i] == mounts[i + 1];
    }
  }

  lemma {:induction false} AppLinesAt(mounts: seq<(string, string)>, start: nat, i: nat)
    requires i < |mounts|
    ensures |AppLines(mounts, start)| == 2 * |mounts|
    ensures AppLines(mounts, start)[2 * i] == AppImport(start + i, mounts[i].0)
    ensures AppLines(mounts, start)[2 * i + 1] == AppMount(start + i, mounts[i].1)
  {
    if i > 0 {
      AppLinesAt(mounts[1..], start + 1, i - 1);
    } else if |mounts| > 1 {
      AppLinesAt(mounts[1..], start + 1, 0);
    }
  }

  /**
    * The bootstrap script, line by line: the import of `createApp` from
    * `vue`, the indentation, the lines of the apps, and the closing
    * indentation; with no entries it still holds the import.
    */
  lemma BootstrapLines(mounts: seq<(string, string)>)
    requires OneLine(mounts)
    ensures Lines(Bootstrap(mounts)) == ["", CREATE_APP_IMPORT] + (["      "] + AppLines(mounts, 0)) + ["    "]
  {
    var indent := "      ";
    LinesOfJoinAround(["", CREATE_APP_IMPORT], indent + Apps(mounts, 0), ["    "]);
    AppsLines(indent, mounts, 0);
    LinesOfLine(indent);
  }

  /**
    * For the `i`-th entry the bootstrap script imports `App<i>` from its
    * module and mounts it on its selector, in list order, two lines per
    * entry after the three opening lines.
    */
  lemma BootstrapApp(mounts: seq<(string, string)>, i: nat)
    requires OneLine(mounts)
    requires i < |mounts|
    ensures var lines := Lines(Bootstrap(mounts));
      && |lines| == 2 * |mounts| + 4
      && lines[3 + 2 * i] == AppImport(i, mounts[i].0)
      && lines[4 + 2 * i] == AppMount(i, mounts[i].1)
  {
    BootstrapLines(mounts);
    var apps := AppLines(mounts, 0);
    AppLinesAt(mounts, 0, i);
    IndexAround(["", CREATE_APP_IMPORT], "      ", apps, ["    "], 2 * i);
    IndexAround(["", CREATE_APP_IMPORT], "      ", apps, ["    "], 2 * i + 1);
  }

  lemma IndexAround<T>(head: seq<T>, x: T, mid: seq<T>, tail: seq<T>, k: nat)
    requires k < |mid|
    ensures |head| + 1 + k < |head + ([x] + mid) + tail|
    ensures (head + ([x] + mid) + tail)[|head| + 1 + k] == mid[k]
  {
  }

  /** Setup reads the name of an app from its decimal index, so different entries get different names. */
  lemma AppNamesDistinct(i: nat, j: nat)
    requires "App" + Decimal(i) == "App" + Decimal(j)
    ensures i == j
  {
    assert Decimal(i) == ("App" + Decimal(i))[3..];
    assert Decimal(j) == ("App" + Decimal(j))[3..];
    DecimalInjective(i, j);
  }

  /** Whatever component settled last among those that set `key` gives its value. */
  lemma {:induction false} LastWriterWins(finished: seq<Finished>, i: nat, key: string)
    requires i < |finished| && key in Written(finished[i])
    requires forall j :: i < j < |finished| ==> key !in Written(finished[j])
    ensures key in Entries(finished) && Entries(finished)[key] == Written(finished[i])[key]
  {
    var init := finished[..|finished| - 1];
    if i < |finished| - 1 {
      assert forall j :: i < j < |init| ==> init[j] == finished[j];
      LastWriterWins(init, i, key);
    }
  }

  /** A key is in `importMap` exactly when some settled component set it. */
  lemma {:induction false} EntriesDomain(finished: seq<Finished>, key: string)
    ensures key in Entries(finished) <==> exists i :: 0 <= i < |finished| && key in Written(finished[i])
  {
    if |finished| > 0 {
      var init := finished[..|finished| - 1];
      EntriesDomain(init, key);
      if key in Entries(finished) && key !in Written(finished[|finished| - 1]) {
        var i :| 0 <= i < |init| && key in Written(init[i]);
        assert finished[i] == init[i];
      }
      if exists i :: 0 <= i < |finished| && key in Written(finished[i]) {
        var i :| 0 <= i < |finished| && key in Written(finished[i]);
        if i < |init| {
          assert init[i] == finished[i];
        }
      }
    }
  }

  /** The mount list of a prefix of the settled components is a prefix of the mount list. */
  lemma {:induction false} MountsPrefix(finished: seq<Finished>, i: nat, j: nat)
    requires i <= j <= |finished|
    ensures Mounts(finished[..i]) <= Mounts(finished[..j])
    decreases j - i
  {
    if i < j {
      MountsPrefix(finished, i, j - 1);
      assert finished[..j][..j - 1] == finished[..j - 1];
    }
  }

  /**
    * The `i`-th settled component, when it has a `mount` attribute and did
    * not fail, has its entry at the position after those settled before it.
    */
  lemma MountAt(finished: seq<Finished>, i: nat)
    requires i < |finished| && finished[i].mount.Some? && finished[i].outcome.Ok?
    ensures |Mounts(finished[..i])| < |Mounts(finished)|
    ensures Mounts(finished)[|Mounts(finished[..i])|] == (ModuleRef(finished[i].outcome.value), finished[i].mount.value)
  {
    MountsPrefix(finished, i + 1, |finished|);
    assert finished[..i + 1][..i] == finished[..i];
    assert finished[..|finished|] == finished;
  }

  /** The document as setup sees it: the global `map` and the scripts setup inserts. */
  class Page {
    var imports: map<string, string>
    var scopes: map<string, Scope>
    var inserted: seq<Insertion>
    /** Whether the page already holds a `script[type="importmap"]`. */
    const importMapInPage: bool
    const external: ExternalMap

    constructor(importMapInPage: bool, external: ExternalMap)
      ensures imports == map["vue" := VUE_URL] && scopes == map[] && inserted == []
      ensures this.importMapInPage == importMapInPage && this.external == external
    {
      imports := map["vue" := VUE_URL];
      scopes := map[];
      inserted := [];
      this.importMapInPage := importMapInPage;
      this.external := external;
    }

    /** `document.querySelector('script[type="importmap"]')` finds one. */
    predicate HasImportMap()
      reads this
    {
      importMapInPage || exists i :: 0 <= i < |inserted| && inserted[i].ImportMapScript?
    }

    /**
      * `setup()` once the components have settled in the order of
      * `finished`: the first failure rejects it, as does an existing
      * import map or an unreadable `sfc-importmap`, and nothing changes;
      * otherwise the imports take the external entries over the defaults
      * and the component entries over both, and the import map and the
      * bootstrap script are inserted.
      */
    method Setup(finished: seq<Finished>) returns (r: Result<(), SetupError>)
      modifies this
      ensures FirstFailure(finished).Some? ==> r == Err(ComponentFailed(FirstFailure(finished).value))
      ensures FirstFailure(finished).None? && old(HasImportMap()) ==> r == Err(ImportMapAlreadySet(IMPORT_MAP_SET))
      ensures FirstFailure(finished).None? && !old(HasImportMap()) && external.Malformed? ==> r == Err(ExternalMapSyntaxError)
      ensures FirstFailure(finished).None? && !old(HasImportMap()) && external.Null? ==> r == Err(ExternalMapNull)
      ensures r.Err? ==> imports == old(imports) && scopes == old(scopes) && inserted == old(inserted)
      ensures r.Ok? <==> FirstFailure(finished).None? && !old(HasImportMap()) && !external.Malformed? && !external.Null?
      ensures r.Ok? ==>
        && imports == old(imports) + ExternalImports(external) + Entries(finished)
        && scopes == old(scopes) + ExternalScopes(external)
        && inserted == old(inserted) + [ImportMapScript(imports, scopes), ModuleScript(Bootstrap(Mounts(finished)))]
        && HasImportMap()
      ensures r.Ok? ==> forall key :: key in Entries(finished) ==> imports[key] == Entries(finished)[key]
      ensures r.Ok? ==> forall key :: key in ExternalImports(external) && key !in Entries(finished) ==>
        imports[key] == ExternalImports(external)[key]
    {
      var importMap, mount, failure := Collect(finished);
      if failure.Some? {
        return Err(ComponentFailed(failure.value));
      }
      if HasImportMap() {
        return Err(ImportMapAlreadySet(IMPORT_MAP_SET));
      }
      if external.Malformed? {
        return Err(ExternalMapSyntaxError);
      }
      if external.Null? {
        return Err(ExternalMapNull);
      }
      imports := imports + ExternalImports(external);
      scopes := scopes + ExternalScopes(external);
      imports := imports + importMap;
      inserted := inserted + [ImportMapScript(imports, scopes)];
      inserted := inserted + [ModuleScript(Bootstrap(mount))];
      assert inserted[|inserted| - 2].ImportMapScript?;
      return Ok(());
    }
  }

  /** `Object.assign(map.imports, externalMap.imports)` adds these; a missing field adds nothing. */
  function ExternalImports(external: ExternalMap): map<string, string>
  {
    if external.MapObject? && external.imports.Some? then external.imports.value else map[]
  }

  function ExternalScopes(external: ExternalMap): map<string, Scope>
  {
    if external.MapObject? && external.scopes.Some? then external.scopes.value else map[]
  }
}
