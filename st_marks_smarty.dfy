/**
 * StMarksSmarty, the earlier version of the same wrapper: the same
 * directory merge and checks under the key "engine", a singleton slot, a
 * plain list of stylesheets and a message queue.
 */
module StMarks {
  import opened Wrappers
  import opened Errors
  import opened PhpArrays
  import opened DirectoryMerge
  import opened DirectoryGuard
  import opened Messages

  /** ENGINE_KEY: the key of the engine's own template and config directories. */
  const EngineKey: string := "engine"

  /** The stylesheet the constructor lists, relative to the application URL. */
  const EngineStylesheet: string := "/vendor/smtech/stmarkssmarty/stylesheets/stylesheet.css"

  /** The engine's defaults, under the directory `engineDir` the class file sits in. */
  function EngineDefaults(engineDir: string): (d: SmartyDirs)
    ensures d.template.Arr? && d.config.Arr?
    ensures Lookup(d.template.entries, StrKey(EngineKey)) == Some(Str(engineDir + "/templates"))
    ensures Lookup(d.config.entries, StrKey(EngineKey)) == Some(Str(engineDir + "/configs"))
    ensures d.compile == Str(engineDir + "/templates_c") && d.cache == Str(engineDir + "/cache")
  {
    SmartyDirs(
      Arr([Entry(StrKey(EngineKey), Str(engineDir + "/templates"))]),
      Arr([Entry(StrKey(EngineKey), Str(engineDir + "/configs"))]),
      Str(engineDir + "/templates_c"),
      Str(engineDir + "/cache"))
  }

  function Checks(app: SmartyDirs, engineDir: string): (r: seq<Job>)
    ensures |r| >= 2
    ensures IsEmpty(app.template) ==> r[0] == Job(Str(engineDir + "/templates"), Read)
    ensures IsEmpty(app.compile) ==> r[|r| - 2] == Job(Str(engineDir + "/templates_c"), Write)
    ensures IsEmpty(app.cache) ==> r[|r| - 1] == Job(Str(engineDir + "/cache"), Write)
  {
    Plan(ApplyDefaults(app, EngineDefaults(engineDir)))
  }

  /**
   * Whatever the application passes, its template and config settings keep
   * the engine's directories under "engine".
   */
  lemma EngineKeyKept(app: SmartyDirs, engineDir: string)
    requires WellFormed(app.template) && WellFormed(app.config)
    ensures var d := ApplyDefaults(app, EngineDefaults(engineDir));
      && Lookup(d.template.entries, StrKey(EngineKey)) == Some(Str(engineDir + "/templates"))
      && Lookup(d.config.entries, StrKey(EngineKey)) == Some(Str(engineDir + "/configs"))
  {
    var e := EngineDefaults(engineDir);
    assert Unique(e.template.entries) && Unique(e.config.entries);
    assert StrKey(EngineKey) in KeySet(e.template.entries);
    assert StrKey(EngineKey) in KeySet(e.config.entries);
    DefaultKeyKept(app.template, e.template, StrKey(EngineKey));
    DefaultKeyKept(app.config, e.config, StrKey(EngineKey));
  }

  /** The static `$singleton` slot. */
  class Statics {
    var singleton: StMarksSmarty?

    constructor ()
      ensures singleton == null
    {
      singleton := null;
    }
  }

  class StMarksSmarty {
    var dirs: SmartyDirs
    var messages: seq<NotificationMessage>
    var stylesheets: seq<string>

    constructor Init(app: SmartyDirs, engineDir: string)
      ensures dirs == ApplyDefaults(app, EngineDefaults(engineDir))
      ensures messages == [] && stylesheets == []
    {
      dirs := ApplyDefaults(app, EngineDefaults(engineDir));
      messages := [];
      stylesheets := [];
    }

    /**
     * The constructor: refuses a second instance, claims the slot, checks the
     * directories (the filesystem's answers are `probes`) and lists the
     * engine stylesheet under `appUrl`. A failed check leaves the slot
     * occupied.
     */
    static method Create(statics: Statics, app: SmartyDirs, engineDir: string, probes: seq<Probe>, appUrl: string)
      returns (r: Result<StMarksSmarty, ErrorCode>)
      requires statics.singleton == null ==> |probes| == |Checks(app, engineDir)|
      modifies statics
      ensures old(statics.singleton) != null ==> r == Failure(Singleton) && statics.singleton == old(statics.singleton)
      ensures old(statics.singleton) == null ==> statics.singleton != null && fresh(statics.singleton)
      ensures old(statics.singleton) == null ==>
        var o := FirstFailure(Checks(app, engineDir), probes);
        && (o == Pass ==> r == Success(statics.singleton))
        && (o.Fail? ==> r == Failure(o.error) && statics.singleton.stylesheets == [])
      ensures old(statics.singleton) == null ==>
        statics.singleton.dirs == ApplyDefaults(app, EngineDefaults(engineDir)) && statics.singleton.messages == []
      ensures r.Success? ==>
        && r.value.dirs == ApplyDefaults(app, EngineDefaults(engineDir))
        && r.value.stylesheets == [appUrl + EngineStylesheet]
        && r.value.messages == []
    {
      if statics.singleton != null {
        return Failure(Singleton);
      }
      var s := new StMarksSmarty.Init(app, engineDir);
      statics.singleton := s;
      var o, _ := CheckAll(Checks(app, engineDir), probes);
      if o.Fail? {
        return Failure(o.error);
      }
      s.ListEngineStylesheet(appUrl);
      r := Success(s);
    }

    /** The end of the constructor: lists the engine stylesheet under the application URL. */
    method ListEngineStylesheet(appUrl: string)
      requires stylesheets == []
      modifies this
      ensures stylesheets == [appUrl + EngineStylesheet]
      ensures messages == old(messages) && dirs == old(dirs)
    {
      stylesheets := stylesheets + [appUrl + EngineStylesheet];
    }

    /** getSmarty: constructs only when the slot is empty, otherwise returns the stored instance. */
    static method GetSmarty(statics: Statics, app: SmartyDirs, engineDir: string, probes: seq<Probe>, appUrl: string)
      returns (r: Result<StMarksSmarty, ErrorCode>)
      requires statics.singleton == null ==> |probes| == |Checks(app, engineDir)|
      modifies statics
      ensures old(statics.singleton) != null ==> r == Success(old(statics.singleton)) && statics.singleton == old(statics.singleton)
      ensures old(statics.singleton) == null ==> statics.singleton != null && fresh(statics.singleton)
      ensures old(statics.singleton) == null ==>
        var o := FirstFailure(Checks(app, engineDir), probes);
        && (o == Pass ==> r == Success(statics.singleton))
        && (o.Fail? ==> r == Failure(o.error))
      ensures old(statics.singleton) == null && r.Success? ==>
        && r.value.dirs == ApplyDefaults(app, EngineDefaults(engineDir))
        && r.value.stylesheets == [appUrl + EngineStylesheet]
        && r.value.messages == []
    {
      if statics.singleton == null {
        var created := Create(statics, app, engineDir, probes, appUrl);
        if created.Failure? {
          return created;
        }
      }
      r := Success(statics.singleton);
    }

    /** addMessage: one more message at the end of the queue, earlier ones untouched. */
    method AddMessage(title: string, content: string, cssClass: string := DefaultClass)
      modifies this
      ensures messages == old(messages) + [NotificationMessage(title, content, cssClass)]
      ensures stylesheets == old(stylesheets) && dirs == old(dirs)
    {
      messages := messages + [NotificationMessage(title, content, cssClass)];
    }
  }
}
