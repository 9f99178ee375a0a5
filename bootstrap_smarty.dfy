/**
 * BootstrapSmarty: the singleton wrapper that sets Smarty's directories from
 * application settings and built-in defaults, checks them, and keeps the
 * registries of stylesheets, scripts, script snippets and messages a page
 * is rendered with.
 */
module Bootstrap {
  import opened Wrappers
  import opened Errors
  import opened PhpStrings
  import opened PhpArrays
  import opened DirectoryMerge
  import opened DirectoryGuard
  import opened AssetRegistry
  import opened Messages

  /** UI_KEY: the key of the package's own directories and stylesheet. */
  const UiKey: string := "BootstrapSmarty"

  /** The stylesheet the constructor registers, relative to the instance URL. */
  const UiStylesheet: string := "/css/BootstrapSmarty.css"

  /**
   * The package's own directories: what `realpath` gives for its templates,
   * configs, templates_c and cache directories.
   */
  datatype UiPaths = UiPaths(templates: Value, configs: Value, compiled: Value, cache: Value)

  /** The defaults the settings are merged with: template and config directories keyed by UI_KEY. */
  function UiDefaults(ui: UiPaths): (d: SmartyDirs)
    ensures d.template.Arr? && d.config.Arr?
    ensures Lookup(d.template.entries, StrKey(UiKey)) == Some(ui.templates)
    ensures Lookup(d.config.entries, StrKey(UiKey)) == Some(ui.configs)
  {
    SmartyDirs(
      Arr([Entry(StrKey(UiKey), ui.templates)]),
      Arr([Entry(StrKey(UiKey), ui.configs)]),
      ui.compiled,
      ui.cache)
  }

  /** The directories the constructor checks, in order. */
  function Checks(app: SmartyDirs, ui: UiPaths): (r: seq<Job>)
    ensures |r| >= 2
    ensures IsEmpty(app.template) ==> r[0] == Job(ui.templates, Read)
    ensures IsEmpty(app.compile) ==> r[|r| - 2] == Job(ui.compiled, Write)
    ensures IsEmpty(app.cache) ==> r[|r| - 1] == Job(ui.cache, Write)
  {
    Plan(ApplyDefaults(app, UiDefaults(ui)))
  }

  /** Adding a URL under UI_KEY to an empty registry gives a registry of just that URL under UI_KEY. */
  lemma UiStylesheetFirst(u: string)
    ensures StylesheetsAfterAdd([], Str(u), UiKey) == Success([Entry(StrKey(UiKey), Str(u))])
  {
    PlainKey(UiKey);
    var e := Entry(StrKey(UiKey), Str(u));
    assert Assign([], StrKey(UiKey), Str(u)) == [e];
    ArrayReplaceOne([], e);
  }

  /** The static `$singleton` slot. */
  class Statics {
    var singleton: BootstrapSmarty?

    constructor ()
      ensures singleton == null
    {
      singleton := null;
    }
  }

  class BootstrapSmarty {
    /** The directory settings handed to Smarty. */
    var dirs: SmartyDirs
    var messages: seq<NotificationMessage>
    var stylesheets: PArray
    var scripts: PArray
    var scriptSnippets: PArray
    var url: string

    /** The registries are PHP arrays: their keys are distinct. */
    ghost predicate Valid()
      reads this`stylesheets, this`scripts, this`scriptSnippets
    {
      Unique(stylesheets) && Unique(scripts) && Unique(scriptSnippets)
    }

    function AssetsOf(): Assets
      reads this
    {
      Assets(stylesheets, scripts, scriptSnippets)
    }

    /** The part of the constructor that sets the directories; the registries start empty. */
    constructor Init(app: SmartyDirs, ui: UiPaths)
      ensures dirs == ApplyDefaults(app, UiDefaults(ui))
      ensures messages == [] && stylesheets == [] && scripts == [] && scriptSnippets == [] && url == ""
      ensures Valid()
    {
      dirs := ApplyDefaults(app, UiDefaults(ui));
      messages := [];
      stylesheets := [];
      scripts := [];
      scriptSnippets := [];
      url := "";
    }

    /**
     * The constructor: refuses a second instance, claims the singleton slot,
     * checks every directory (the filesystem's answers are `probes`), then
     * records `pageUrl` and registers the package stylesheet under UI_KEY.
     * The slot is claimed before the checks, so an instance that fails them
     * still occupies it.
     */
    static method Create(statics: Statics, app: SmartyDirs, ui: UiPaths, probes: seq<Probe>, pageUrl: string)
      returns (r: Result<BootstrapSmarty, ErrorCode>)
      requires statics.singleton == null ==> |probes| == |Checks(app, ui)|
      modifies statics
      ensures old(statics.singleton) != null ==> r == Failure(Singleton) && statics.singleton == old(statics.singleton)
      ensures old(statics.singleton) == null ==> statics.singleton != null && fresh(statics.singleton)
      ensures old(statics.singleton) == null ==>
        var o := FirstFailure(Checks(app, ui), probes);
        && (o == Pass ==> r == Success(statics.singleton))
        && (o.Fail? ==> r == Failure(o.error) && statics.singleton.stylesheets == [])
      ensures old(statics.singleton) == null ==>
        statics.singleton.Valid() && statics.singleton.dirs == ApplyDefaults(app, UiDefaults(ui))
      ensures r.Success? ==>
        var b := r.value;
        && b.Valid()
        && b.dirs == ApplyDefaults(app, UiDefaults(ui))
        && b.url == pageUrl
        && b.stylesheets == [Entry(StrKey(UiKey), Str(pageUrl + UiStylesheet))]
        && b.scripts == [] && b.scriptSnippets == [] && b.messages == []
    {
      if statics.singleton != null {
        return Failure(Singleton);
      }
      var b := new BootstrapSmarty.Init(app, ui);
      statics.singleton := b;
      var o, _ := CheckAll(Checks(app, ui), probes);
      if o.Fail? {
        return Failure(o.error);
      }
      b.SetDefaults(pageUrl);
      r := Success(b);
    }

    /** The end of the constructor: records the instance URL and registers the package stylesheet. */
    method SetDefaults(pageUrl: string)
      requires Valid() && stylesheets == []
      modifies this
      ensures Valid()
      ensures url == pageUrl && stylesheets == [Entry(StrKey(UiKey), Str(pageUrl + UiStylesheet))]
      ensures scripts == old(scripts) && scriptSnippets == old(scriptSnippets)
      ensures messages == old(messages) && dirs == old(dirs)
    {
      url := pageUrl;
      UiStylesheetFirst(pageUrl + UiStylesheet);
      var _ := AddStylesheet(Str(pageUrl + UiStylesheet), UiKey);
    }

    /** getSmarty: the stored instance, or a new one when the slot is empty. */
    static method GetSmarty(statics: Statics, app: SmartyDirs, ui: UiPaths, probes: seq<Probe>, pageUrl: string)
      returns (r: Result<BootstrapSmarty, ErrorCode>)
      requires statics.singleton == null ==> |probes| == |Checks(app, ui)|
      requires statics.singleton != null ==> statics.singleton.Valid()
      modifies statics
      ensures old(statics.singleton) != null ==> r == Success(old(statics.singleton)) && statics.singleton == old(statics.singleton)
      ensures old(statics.singleton) == null ==> statics.singleton != null && fresh(statics.singleton)
      ensures old(statics.singleton) == null ==>
        var o := FirstFailure(Checks(app, ui), probes);
        && (o == Pass ==> r == Success(statics.singleton))
        && (o.Fail? ==> r == Failure(o.error))
      ensures statics.singleton.Valid()
      ensures r.Success? ==> r.value.Valid()
      ensures old(statics.singleton) == null && r.Success? ==>
        var b := r.value;
        && b.dirs == ApplyDefaults(app, UiDefaults(ui))
        && b.url == pageUrl
        && b.stylesheets == [Entry(StrKey(UiKey), Str(pageUrl + UiStylesheet))]
        && b.scripts == [] && b.scriptSnippets == [] && b.messages == []
    {
      if statics.singleton == null {
        var created := Create(statics, app, ui, probes, pageUrl);
        if created.Failure? {
          return created;
        }
      }
      r := Success(statics.singleton);
    }

    /**
     * The first loop of addStylesheet: scans the registry's positions for a
     * number to continue from.
     */
    static method AutoNumberStart(reg: PArray, k: string) returns (counter: int)
      ensures counter == ScanCounter(|reg|, k)
    {
      counter := FirstNumber;
      var pos := 0;
      while pos < |reg|
        invariant 0 <= pos <= |reg|
        invariant counter == ScanCounter(pos, k)
      {
        match FindNumbered(k, Dec(pos)) {
          case Some(n) => counter := Max(counter, n + 1);
          case None =>
        }
        pos := pos + 1;
      }
    }

    /**
     * The numbering loop of addStylesheet: each element of the list goes under
     * `{$k}-{$counter}`, the counter starting where AutoNumberStart says; a
     * non-string element throws NOT_A_URL.
     */
    static method NumberList(reg: PArray, vs: seq<Value>, k: string) returns (r: Result<PArray, ErrorCode>)
      ensures r == NumberFrom([], vs, k, FirstNumber)
    {
      var start := AutoNumberStart(reg, k);
      ScanCounterIsFirst(|reg|, k);
      var counter: nat := start;
      var batch: PArray := [];
      var i := 0;
      while i < |vs|
        invariant 0 <= i <= |vs|
        invariant NumberFrom(batch, vs[i..], k, counter) == NumberFrom([], vs, k, FirstNumber)
      {
        assert vs[i..][1..] == vs[i + 1..];
        if vs[i].Str? {
          batch := Assign(batch, NumberedKey(k, counter), vs[i]);
          counter := counter + 1;
        } else {
          return Failure(NotAUrl);
        }
        i := i + 1;
      }
      assert vs[i..] == [];
      r := Success(batch);
    }

    /** The array addStylesheet builds before merging it into the registry. */
    static method Batch(reg: PArray, s: Value, key: string) returns (r: Result<PArray, ErrorCode>)
      ensures r == StylesheetBatch(s, key)
    {
      var k := DirectoryMerge.AppKey;
      if !EmptyKey(key) {
        k := key;
      }
      if s.Arr? && HasStringKey(s.entries) {
        r := Success(s.entries);
      } else if s.Arr? {
        r := NumberList(reg, Values(s.entries), k);
      } else if s.Str? {
        r := Success(Assign([], KeyOf(k), s));
      } else {
        r := Failure(NotAUrl);
      }
    }

    /**
     * addStylesheet: the batch is `array_replace`d into the registry; on
     * NOT_A_URL the registry is left as it was.
     */
    method AddStylesheet(s: Value, key: string) returns (o: Outcome<ErrorCode>)
      requires Valid()
      modifies this
      ensures Valid()
      ensures var after := StylesheetsAfterAdd(old(stylesheets), s, key);
        && (after.Success? ==> o == Pass && stylesheets == after.value)
        && (after.Failure? ==> o == Fail(after.error) && stylesheets == old(stylesheets))
      ensures scripts == old(scripts) && scriptSnippets == old(scriptSnippets)
      ensures messages == old(messages) && dirs == old(dirs) && url == old(url)
    {
      var batch := Batch(stylesheets, s, key);
      if batch.Failure? {
        return Fail(batch.error);
      }
      ArrayReplaceUnique(stylesheets, batch.value);
      stylesheets := ArrayReplace(stylesheets, batch.value);
      o := Pass;
    }

    /** getStylesheet: the whole registry for an empty key, else the entries whose name contains it. */
    method GetStylesheet(key: string) returns (r: PArray)
      requires Valid()
      ensures r == StylesheetsMatching(stylesheets, key)
    {
      if EmptyKey(key) {
        return stylesheets;
      }
      r := [];
      var i := 0;
      while i < |stylesheets|
        invariant 0 <= i <= |stylesheets|
        invariant r == Filtered(stylesheets[..i], key)
      {
        var e := stylesheets[i];
        assert stylesheets[..i + 1][..i] == stylesheets[..i];
        if Contains(KeyString(e.key), key) {
          UniquePrefix(stylesheets, i);
          FilteredKeys(stylesheets[..i], key);
          r := Assign(r, e.key, e.val);
        }
        i := i + 1;
      }
      assert stylesheets[..i] == stylesheets;
    }

    /** addScript: append under the next integer key, or set the given key. */
    method AddScript(script: Value, key: string)
      requires Valid()
      modifies this
      ensures Valid()
      ensures scripts == AddEntry(old(scripts), script, key)
      ensures stylesheets == old(stylesheets) && scriptSnippets == old(scriptSnippets)
      ensures messages == old(messages) && dirs == old(dirs) && url == old(url)
    {
      if EmptyKey(key) {
        scripts := Push(scripts, script);
      } else {
        AssignUnique(scripts, KeyOf(key), script);
        scripts := Assign(scripts, KeyOf(key), script);
      }
    }

    /** addScriptSnippet: append under the next integer key, or set the given key. */
    method AddScriptSnippet(snippet: Value, key: string)
      requires Valid()
      modifies this
      ensures Valid()
      ensures scriptSnippets == AddEntry(old(scriptSnippets), snippet, key)
      ensures stylesheets == old(stylesheets) && scripts == old(scripts)
      ensures messages == old(messages) && dirs == old(dirs) && url == old(url)
    {
      if EmptyKey(key) {
        scriptSnippets := Push(scriptSnippets, snippet);
      } else {
        AssignUnique(scriptSnippets, KeyOf(key), snippet);
        scriptSnippets := Assign(scriptSnippets, KeyOf(key), snippet);
      }
    }

    /** addMessage: one more message at the end of the queue. */
    method AddMessage(title: string, content: string, cssClass: string)
      modifies this
      ensures messages == old(messages) + [NotificationMessage(title, content, cssClass)]
      ensures AssetsOf() == old(AssetsOf()) && dirs == old(dirs) && url == old(url)
    {
      messages := messages + [NotificationMessage(title, content, cssClass)];
    }

    /**
     * enable: registers a known module's stylesheet, scripts and snippet under
     * the module's name and answers true; any other name changes nothing and
     * answers false. `assetUrl` is where the bundled assets are served from.
     */
    method Enable(moduleName: string, assetUrl: string) returns (ok: bool)
      requires Valid()
      modifies this
      ensures Valid()
      ensures ok == IsModule(moduleName)
      ensures AssetsOf() == Enabled(old(AssetsOf()), moduleName, assetUrl)
      ensures messages == old(messages) && dirs == old(dirs) && url == old(url)
    {
      if moduleName == ModuleDatepicker {
        var _ := AddStylesheet(Str(assetUrl + DatepickerCss), ModuleDatepicker);
        AddScript(Str(assetUrl + DatepickerJs), ModuleDatepicker);
        AddScriptSnippet(Str(DatepickerSnippet), ModuleDatepicker);
        return true;
      } else if moduleName == ModuleColorpicker {
        var _ := AddStylesheet(Str(assetUrl + ColorpickerCss), ModuleColorpicker);
        AddScript(Str(assetUrl + ColorpickerJs), ModuleColorpicker);
        AddScriptSnippet(Str(ColorpickerSnippet), ModuleColorpicker);
        return true;
      } else if moduleName == ModuleSortable {
        var _ := AddStylesheet(Str(assetUrl + SortableCss), ModuleSortable);
        AddScript(Str(assetUrl + MomentJs), SortablePrerequisite);
        AddScript(Str(assetUrl + SortableJs), ModuleSortable);
        return true;
      }
      return false;
    }
  }
}
