/**
 * The directory-list merge shared by BootstrapSmarty::appendUiDefaults and
 * StMarksSmarty::directoryArrayMerge: an application-supplied directory (a
 * scalar or a PHP array) is combined with built-in defaults.
 */
module DirectoryMerge {
  import opened Wrappers
  import opened PhpArrays

  /** The key given to a scalar application directory in array mode. */
  const AppKey: string := "app"

  /** The application directory as an array: itself, or `[AppKey => appDir]`. */
  function AppEntries(appDir: Value): (r: PArray)
    ensures appDir.Arr? ==> r == appDir.entries
    ensures !appDir.Arr? ==> Lookup(r, StrKey(AppKey)) == Some(appDir) && |r| == 1
  {
    if appDir.Arr? then appDir.entries else [Entry(StrKey(AppKey), appDir)]
  }

  /**
   * In array mode: `array_merge(appDir-as-array, defaults)` when appDir is
   * non-empty, the defaults otherwise. In scalar mode: appDir when non-empty,
   * the defaults otherwise. `array_merge` is only reached with array
   * defaults, which every caller passes.
   */
  function MergeDirectories(appDir: Value, defaults: Value, arrayResult: bool): (r: Value)
    requires arrayResult && !IsEmpty(appDir) ==> defaults.Arr?
    ensures IsEmpty(appDir) ==> r == defaults
    ensures !arrayResult && !IsEmpty(appDir) ==> r == appDir
    ensures arrayResult && !IsEmpty(appDir) ==> r.Arr?
  {
    if arrayResult then
      if !IsEmpty(appDir) then Arr(ArrayMerge(AppEntries(appDir), defaults.entries))
      else defaults
    else
      if !IsEmpty(appDir) then appDir else defaults
  }

  /** A PHP array value: its keys are distinct, as in every PHP array. */
  predicate WellFormed(v: Value) {
    v.Arr? ==> Unique(v.entries)
  }

  /**
   * Array mode with a non-empty application directory: its keys come first and
   * in order (integer keys renumbered from 0), every string key of the defaults
   * carries the default's value, other string keys keep the application's
   * value, the list part is the application's values followed by the
   * defaults', and the result is a well-formed PHP array.
   */
  lemma ArrayModeMerge(appDir: Value, defaults: Value)
    requires !IsEmpty(appDir) && defaults.Arr?
    requires WellFormed(appDir) && WellFormed(defaults)
    ensures var r := MergeDirectories(appDir, defaults, true).entries;
      var a := AppEntries(appDir);
      && |r| >= |a|
      && (forall i :: 0 <= i < |a| ==> r[i].key == Renumber(a, 0)[i].key)
      && (forall k: Key :: k.StrKey? && k in KeySet(defaults.entries) ==> Lookup(r, k) == Lookup(defaults.entries, k))
      && (forall k: Key :: k.StrKey? && k !in KeySet(defaults.entries) ==> Lookup(r, k) == Lookup(a, k))
      && Counting(IntKeysOf(r))
      && IntValues(r) == IntValues(a) + IntValues(defaults.entries)
      && Unique(r)
  {
    var a, b := AppEntries(appDir), defaults.entries;
    assert Unique(a);
    ArrayMergeOrder(a, b);
    forall k: Key | k.StrKey? {
      ArrayMergeLookup(a, b, k);
    }
    ArrayMergeIntegers(a, b);
    ArrayMergeUnique(a, b);
  }

  /** A scalar application directory sits first, under AppKey, unless the defaults claim that key. */
  lemma ScalarAppDirFirst(appDir: Value, defaults: Value)
    requires !IsEmpty(appDir) && !appDir.Arr? && defaults.Arr? && WellFormed(defaults)
    ensures var r := MergeDirectories(appDir, defaults, true).entries;
      && |r| >= 1 && r[0].key == StrKey(AppKey)
      && (StrKey(AppKey) !in KeySet(defaults.entries) ==> Lookup(r, StrKey(AppKey)) == Some(appDir))
  {
    var a, b := AppEntries(appDir), defaults.entries;
    ArrayMergeOrder(a, b);
    ArrayMergeLookup(a, b, StrKey(AppKey));
  }

  /** Whatever the application passes, a string key of array defaults keeps its default value. */
  lemma DefaultKeyKept(appDir: Value, defaults: Value, k: Key)
    requires defaults.Arr? && WellFormed(appDir) && WellFormed(defaults)
    requires k.StrKey? && k in KeySet(defaults.entries)
    ensures Lookup(MergeDirectories(appDir, defaults, true).entries, k) == Lookup(defaults.entries, k)
  {
    if !IsEmpty(appDir) {
      ArrayModeMerge(appDir, defaults);
    }
  }

  /** The four directory settings Smarty is given. */
  datatype SmartyDirs = SmartyDirs(template: Value, config: Value, compile: Value, cache: Value)

  /**
   * The settings the constructor hands to Smarty: template and config
   * directories merged in array mode, compile and cache directories in
   * scalar mode.
   */
  function ApplyDefaults(app: SmartyDirs, defaults: SmartyDirs): (r: SmartyDirs)
    requires defaults.template.Arr? && defaults.config.Arr?
    ensures r.template.Arr? && r.config.Arr?
    ensures IsEmpty(app.compile) ==> r.compile == defaults.compile
    ensures IsEmpty(app.cache) ==> r.cache == defaults.cache
  {
    SmartyDirs(
      MergeDirectories(app.template, defaults.template, true),
      MergeDirectories(app.config, defaults.config, true),
      MergeDirectories(app.compile, defaults.compile, false),
      MergeDirectories(app.cache, defaults.cache, false))
  }
}
