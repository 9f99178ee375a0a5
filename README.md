# bootstrapsmarty — a Dafny model

This project models the core of bootstrapsmarty. The package wraps the Smarty
template engine as a singleton. It sets Smarty's template, config, compile and
cache directories from what the application passes and from the package's own
defaults. It checks every directory before use. It also keeps the registries
that a page is rendered with: stylesheets, scripts, script snippets and
notification messages. `BootstrapSmarty` is the current class;
`StMarksSmarty` is the earlier one, with the same directory handling under the
key `engine`.

The modules follow the source:

- `PhpStrings`: the PHP string behaviour the core relies on. This covers
  decimal rendering of integers, canonical integer strings (for key
  normalisation), and the two regular expressions the core uses
  (`key-?\d*` in getStylesheet, `key-(\d+)` in addStylesheet) for keys
  without regex metacharacters.
- `PhpArrays`: PHP ordered arrays as sequences of key/value entries with
  distinct keys. It models `$a[$k] = $v`, `$a[] = $v`, `array_replace` and
  `array_merge`, with their lookups, ordering and renumbering proved.
- `DirectoryMerge`: `appendUiDefaults` and `directoryArrayMerge`, and the four
  directory settings the constructors hand to Smarty.
- `DirectoryGuard`: `testWriteableDirectory` and `testReadableDirectory` as
  decision tables over what the filesystem answers. It also models the
  constructors' sweep over all directories, which stops at the first exception.
- `AssetRegistry`: the registries as functions of their previous value. This
  covers addStylesheet, getStylesheet, addScript/addScriptSnippet and enable.
- `Bootstrap`: the `BootstrapSmarty` class with its singleton slot. Its methods
  update the registries in place and are proved against `AssetRegistry`.
- `StMarks`: the `StMarksSmarty` class.
- `Wrappers`, `Errors`, `Messages`: result types, the exception codes and the
  message record.

### Behaviour as written

- **Numbering always starts at 1.** addStylesheet scans `array_keys($this->stylesheets)`
  with `foreach ... as $name => $s`. That binds `$name` to the positions 0, 1, 2, …,
  not to the stylesheet names. The `key-(\d+)` pattern never matches a bare
  number, so the counter always stays at 1, whatever the comment above the loop
  says. A numbered list therefore overwrites `key-1`, `key-2`, … from an earlier
  list. `ScanCounterIsFirst` proves this, and `NumberingRestartsAtOne` shows it on
  a concrete registry. The model keeps this behaviour.
- **getStylesheet matches substrings.** Its pattern `key-?\d*` is unanchored,
  so an entry matches whenever `key` occurs anywhere in its name. For example,
  `webapp` matches `app` (`SubstringNamesMatch`).
- **A failed construction keeps its slot.** Both constructors store the new
  instance in the singleton slot before the directory checks. An instance
  whose checks throw still occupies the slot, and getSmarty returns it from
  then on.
- **A missing readable directory fails even after it is created.**
  testReadableDirectory creates a missing directory and then throws
  `MISSING_FILES` anyway.

## Model

| member | source | states |
|---|---|---|
| Errors.Code | src/BootstrapSmarty.php:664-679 | every exception code lies between 1 and 5, and each code belongs to exactly one kind: SINGLETON 1, UNREADABLE_DIRECTORY 2, UNWRITABLE_DIRECTORY 3, MISSING_FILES 4, NOT_A_URL 5 |
| Errors.CodeInjective | src/BootstrapSmarty.php:664-679 | different exception kinds carry different codes |
| PhpStrings.DecRoundTrip | src/BootstrapSmarty.php:504 | the decimal text of the counter in a numbered name reads back as the same number |
| PhpStrings.DecInjective | src/BootstrapSmarty.php:504 | different counters give different decimal texts |
| PhpStrings.CanonicalIsDec | src/BootstrapSmarty.php:514 | a canonical non-negative integer string is the decimal text of its value, which is why PHP turns such string keys into integer keys |
| PhpStrings.Contains | src/BootstrapSmarty.php:545 | the unanchored filter pattern matches every name when the key is empty, never a name shorter than the key, and every name that starts with the key |
| PhpStrings.ContainsIff | src/BootstrapSmarty.php:545 | the filter pattern `key-?\d*` matches a name exactly when key occurs in it at some position (both directions) |
| PhpStrings.FindNumbered | src/BootstrapSmarty.php:498 | `key-(\d+)` captures a number only from a name at least two characters longer than the key that contains the key, and always captures one from a name of the form key, dash, digit |
| PhpStrings.FindNumberedDigits | src/BootstrapSmarty.php:497-498 | the pattern `key-(\d+)` never matches a string of digits, such as an array position |
| PhpArrays.KeyStringRoundTrip | src/BootstrapSmarty.php:545 | turning an array key into the string the pattern is matched against and back gives the same key |
| PhpArrays.KeyOfRoundTrip | src/BootstrapSmarty.php:514 | a key written as a normalised string comes back as that string |
| PhpArrays.DashedKeyIsString | src/BootstrapSmarty.php:504 | a name of the form `key-n` stays a string key |
| PhpArrays.IsEmpty | src/BootstrapSmarty.php:185 | (also lines 195, 482, 540 and 560) `empty()` holds exactly for null, false, 0, "", "0" and the empty array |
| PhpArrays.KeyOf | src/BootstrapSmarty.php:563 | (also line 514) a string key becomes an integer key exactly when it is a canonical decimal integer, non-negative or negative by its sign, and stays the same string otherwise |
| PhpArrays.Assign | src/BootstrapSmarty.php:563 | `$a[$k] = $v` rewrites a present key in place, appends an absent one, and keeps every other entry and its position |
| PhpArrays.AssignLookup | src/BootstrapSmarty.php:563 | after `$a[$k] = $v`, k holds v and every other key holds what it held before |
| PhpArrays.AssignUnique | src/BootstrapSmarty.php:563 | `$a[$k] = $v` keeps the keys distinct |
| PhpArrays.NextIndex | src/BootstrapSmarty.php:561 | the index `$a[] =` uses is non-negative, above every integer key present, and either 0 or one past an integer key present |
| PhpArrays.Push | src/BootstrapSmarty.php:561 | `$a[] = $v` stores v under a fresh integer key, adds only that key, leaves every other key's value, and keeps the keys distinct |
| PhpArrays.ArrayReplace | src/BootstrapSmarty.php:523 | array_replace keeps the first array's keys at their positions, leaves unchanged the entries whose key the second array lacks, and has exactly the keys of both |
| PhpArrays.ArrayReplaceLookup | src/BootstrapSmarty.php:523 | after array_replace, every key of the second array holds its value there and every other key holds its value in the first |
| PhpArrays.ArrayReplaceAppends | src/BootstrapSmarty.php:523 | array_replace keeps the first array's keys in order and appends the second array's new keys in their order |
| PhpArrays.ArrayReplaceUnique | src/BootstrapSmarty.php:523 | array_replace of arrays with distinct keys has distinct keys |
| PhpArrays.MergeIntoLookup | src/BootstrapSmarty.php:187 | merging an array into a partial result leaves every string key with the merged array's value if present, else the earlier value |
| PhpArrays.MergeIntoRenumbers | src/BootstrapSmarty.php:187 | merging an array whose string keys are new appends it with its integer keys renumbered after those already present |
| PhpArrays.ArrayMerge | src/BootstrapSmarty.php:187-189 | array_merge has at most as many entries as its two arguments together, and its integer keys are exactly 0, 1, 2, … one for each integer key of the two arguments |
| PhpArrays.ArrayMergeOrder | src/BootstrapSmarty.php:187-189 | array_merge starts with the first array's keys, in order, with its integer keys renumbered from 0 |
| PhpArrays.ArrayMergeLookup | src/BootstrapSmarty.php:187-189 | in array_merge, a string key holds the second array's value if that array has it, and the first array's value otherwise |
| PhpArrays.ArrayMergeIntegers | src/BootstrapSmarty.php:187-189 | array_merge numbers its integer keys 0, 1, 2, … and lists the first array's integer-keyed values, then the second's |
| PhpArrays.ArrayMergeUnique | src/BootstrapSmarty.php:187-189 | array_merge of arrays with distinct keys has distinct keys |
| DirectoryMerge.AppEntries | src/BootstrapSmarty.php:186-190 | an array application directory is used as is; a scalar one becomes the one-entry array holding it under APP_KEY |
| DirectoryMerge.MergeDirectories | src/BootstrapSmarty.php:179-201 | (also StMarksSmarty::directoryArrayMerge, StMarksSmarty.php lines 62-80, which is identical) an empty application directory gives the defaults; in scalar mode a non-empty one is returned unchanged; in array mode the result is an array |
| DirectoryMerge.ArrayModeMerge | src/BootstrapSmarty.php:185-190 | array mode: the application's keys come first, a default's string key keeps the default value, other string keys keep the application value, the list part is the application's values then the defaults', keys stay distinct |
| DirectoryMerge.ScalarAppDirFirst | src/BootstrapSmarty.php:188-190 | a scalar application directory comes first under "app", and is found there unless the defaults claim "app" |
| DirectoryMerge.DefaultKeyKept | StMarksSmarty.php:62-72 | whatever the application passes, every string key of array defaults keeps its default directory |
| DirectoryMerge.ApplyDefaults | StMarksSmarty.php:124-127 | template and config settings are arrays; an empty compile or cache setting falls back to the default |
| DirectoryGuard.TestWriteable | src/BootstrapSmarty.php:101-121 | (the same table as StMarksSmarty.php lines 13-33) it passes iff the path is a directory that is writable or can be chmod-ed to 0775, or is missing and can be created; otherwise it throws UNWRITABLE_DIRECTORY; it calls mkdir exactly when the path is missing and chmod exactly when the directory is not writable |
| DirectoryGuard.TestReadable | src/BootstrapSmarty.php:141-168 | (the same table as StMarksSmarty.php lines 35-60) a missing path is created and still throws MISSING_FILES; an existing one passes iff it is a directory that is readable or can be chmod-ed to 0555, and throws UNREADABLE_DIRECTORY otherwise; it calls mkdir exactly when the path is missing and chmod exactly when an existing directory is not readable |
| DirectoryGuard.Dirs | src/BootstrapSmarty.php:269-274 | the directories a `foreach` over a setting visits: each value of an array setting in order, or the single scalar setting |
| DirectoryGuard.Plan | src/BootstrapSmarty.php:268-276 | the constructor checks every template directory and every config directory for reading, in order, then the compile and cache directories for writing |
| DirectoryGuard.FirstFailure | src/BootstrapSmarty.php:268-276 | the sweep passes iff every check passes; when it fails, it throws the exception of a check that every earlier check passed |
| DirectoryGuard.CheckAll | src/BootstrapSmarty.php:268-276 | (the same loops as StMarksSmarty.php lines 129-138) the checking loops give the sweep's outcome, run every check when all pass, stop right after the first failing one, and make each check's filesystem call in order |
| AssetRegistry.EffectiveKey | src/BootstrapSmarty.php:481-484 | the key stylesheets are filed under is never empty, so `key-n` names are never bare numbers |
| AssetRegistry.EmptyKey | src/BootstrapSmarty.php:482 | (also lines 540 and 560) a key argument counts as empty exactly when PHP's `empty()` holds for it |
| AssetRegistry.NumberedKeyIsString | src/BootstrapSmarty.php:504 | a numbered name `key-n` is the string key `key-n` |
| AssetRegistry.NumberedKeyInjective | src/BootstrapSmarty.php:504 | different counters give different numbered names |
| AssetRegistry.Labeled | src/BootstrapSmarty.php:502-505 | the i-th URL of a list is filed under `key-(c+i)`, one entry per URL |
| AssetRegistry.LabeledUnique | src/BootstrapSmarty.php:502-505 | the names of a numbered list are distinct |
| AssetRegistry.NumberFrom | src/BootstrapSmarty.php:502-512 | numbering a list fails iff one of its elements is not a string, and the failure is NOT_A_URL |
| AssetRegistry.NumberFromLabels | src/BootstrapSmarty.php:502-512 | numbering a list of strings gives exactly the numbered entries, appended to what was built so far |
| AssetRegistry.ScanCounterIsFirst | src/BootstrapSmarty.php:496-501 | the counter scan over array positions never moves the counter from 1 |
| AssetRegistry.ScanCounter | src/BootstrapSmarty.php:496-501 | the counter the scan loop computes never drops below its start value 1 |
| AssetRegistry.StylesheetBatch | src/BootstrapSmarty.php:486-520 | the new entries can be built unless the argument is neither string nor array, or is a list with a non-string element; such calls throw NOT_A_URL |
| AssetRegistry.StylesheetsAfterAdd | src/BootstrapSmarty.php:479-524 | a single string URL never throws; any failure is NOT_A_URL |
| AssetRegistry.ArrayReplaceOne | src/BootstrapSmarty.php:523 | replacing with a one-entry array is `$a[$k] = $v` |
| AssetRegistry.AssignInPlace | src/BootstrapSmarty.php:523 | assigning a key rewrites its entry in place, keeps every other entry, and keeps the keys distinct |
| AssetRegistry.AddSingleStylesheet | src/BootstrapSmarty.php:513-523 | one URL under the effective key: that key holds the URL, rewritten in place if present and appended otherwise; every other entry keeps its position and value |
| AssetRegistry.AddStylesheetList | src/BootstrapSmarty.php:494-512 | a list of strings is merged as `key-1`, `key-2`, … in list order |
| AssetRegistry.NumberedListMerged | src/BootstrapSmarty.php:523 | after merging a numbered list, the n-th URL sits under `key-n`, present names keep their place, absent ones are appended in order, and other names keep their values |
| AssetRegistry.AddStylesheetAssociative | src/BootstrapSmarty.php:491-493 | an array with a string key is merged as given |
| AssetRegistry.NumberingRestartsAtOne | src/BootstrapSmarty.php:496-505 | adding a one-URL list under "mod" to a registry that holds "mod-1" overwrites "mod-1" |
| AssetRegistry.Filtered | src/BootstrapSmarty.php:544-548 | the filter never returns more entries than the registry has |
| AssetRegistry.StylesheetsMatching | src/BootstrapSmarty.php:539-551 | an empty key returns the whole registry |
| AssetRegistry.FilteredSelects | src/BootstrapSmarty.php:544-548 | an entry is returned iff it is in the registry and its name matches (both directions) |
| AssetRegistry.FilteredConcat | src/BootstrapSmarty.php:544-548 | the filter keeps registry order: filtering a concatenation is concatenating the filtered parts |
| AssetRegistry.FilteredKeys | src/BootstrapSmarty.php:546 | the result's names are names of the registry |
| AssetRegistry.NumberedNamesMatch | src/BootstrapSmarty.php:545 | the key itself and every `key-n` name match the key |
| AssetRegistry.SubstringNamesMatch | src/BootstrapSmarty.php:545 | "webapp" matches "app": the pattern is not anchored |
| AssetRegistry.AddEntry | src/BootstrapSmarty.php:559-565 | an empty key appends under a fresh next index; otherwise the key holds the value; keys stay distinct |
| AssetRegistry.AssignSame | src/BootstrapSmarty.php:563 | writing a key with the value it already holds changes nothing |
| AssetRegistry.AddEntryKeyedIdempotent | src/BootstrapSmarty.php:559-565 | adding the same script under the same non-empty key twice is the same as adding it once |
| AssetRegistry.AddEntryOthers | src/BootstrapSmarty.php:563 | a keyed addition leaves every other key's value unchanged |
| AssetRegistry.Enabled | src/BootstrapSmarty.php:602-634 | an unknown module name changes nothing |
| AssetRegistry.KeyedModule | src/BootstrapSmarty.php:605-623 | registering a datepicker- or colorpicker-style module keeps the keys of all three registries distinct |
| AssetRegistry.PrerequisiteModule | src/BootstrapSmarty.php:625-629 | registering the sortable-style module leaves the snippets untouched and keeps the stylesheet and script keys distinct |
| AssetRegistry.ModuleKeysArePlain | src/BootstrapSmarty.php:38-40 | the module names and the sortable prerequisite name are string keys |
| AssetRegistry.AddStylesheetUrlIsAssign | src/BootstrapSmarty.php:513-523 | adding one URL under a non-empty key is `$a[$key] = $url` |
| AssetRegistry.KeyedModuleLookups | src/BootstrapSmarty.php:605-623 | a datepicker- or colorpicker-style module leaves its stylesheet, script and snippet under its own name and every other key as it was |
| AssetRegistry.KeyedModuleIdempotent | src/BootstrapSmarty.php:605-623 | repeating such a module's registrations changes nothing |
| AssetRegistry.PrerequisiteModuleLookups | src/BootstrapSmarty.php:625-629 | the sortable-style module leaves its stylesheet and script under its name and the prerequisite script under the prerequisite's name; it changes no other key and no snippet |
| AssetRegistry.PrerequisiteModuleIdempotent | src/BootstrapSmarty.php:625-629 | repeating the sortable-style registrations changes nothing |
| AssetRegistry.EnableIdempotent | src/BootstrapSmarty.php:602-634 | enabling a module twice leaves the registries as after once |
| AssetRegistry.EnableWritesOnlyModuleKeys | src/BootstrapSmarty.php:602-634 | enabling a module changes no key but the module's own name (and "required by sortable" for sortable) in any registry |
| AssetRegistry.EnableRegistersModule | src/BootstrapSmarty.php:604-629 | after enabling, the module's name holds its stylesheet, script and snippet URLs; sortable also has moment.js under its prerequisite name and adds no snippet |
| Bootstrap.UiDefaults | src/BootstrapSmarty.php:256-259 | the package's template and config defaults are arrays holding its own directories under UI_KEY |
| Bootstrap.UiStylesheetFirst | src/BootstrapSmarty.php:292 | adding the package stylesheet to an empty registry gives exactly one entry, the URL under UI_KEY |
| Bootstrap.Checks | src/BootstrapSmarty.php:268-276 | the constructor's sweep has at least the compile and cache checks; without application settings it reads the package's template directory first and writes to the package's compile and cache directories last |
| Bootstrap.Statics.constructor | src/BootstrapSmarty.php:21 | the singleton slot starts empty |
| Bootstrap.BootstrapSmarty.Init | src/BootstrapSmarty.php:256-265 | Smarty's directories are the application settings merged with the package defaults; the registries start empty |
| Bootstrap.BootstrapSmarty.Create | src/BootstrapSmarty.php:245-292 | an occupied slot throws SINGLETON and keeps its instance; otherwise a fresh instance with the merged directories and distinct registry keys takes the slot, even when a check fails; the call succeeds iff every directory check passes (else throws the first failing check's code), and on success the instance holds the merged directories, the page URL and just the package stylesheet under UI_KEY |
| Bootstrap.BootstrapSmarty.SetDefaults | src/BootstrapSmarty.php:279-292 | the instance URL is recorded and the registry holds just the package stylesheet under UI_KEY; scripts, snippets, messages and directories are unchanged |
| Bootstrap.BootstrapSmarty.GetSmarty | src/BootstrapSmarty.php:218-223 | the stored instance when there is one; otherwise a fresh instance is constructed into the slot, and the call throws the first failing check's code or returns it holding the merged directories, the page URL and just the package stylesheet; the instance in the slot and any returned instance have distinct registry keys |
| Bootstrap.BootstrapSmarty.AutoNumberStart | src/BootstrapSmarty.php:496-501 | the counter loop ends with the scan's value, which is 1 |
| Bootstrap.BootstrapSmarty.NumberList | src/BootstrapSmarty.php:502-512 | the numbering loop gives the numbered list from 1, or NOT_A_URL at the first non-string |
| Bootstrap.BootstrapSmarty.Batch | src/BootstrapSmarty.php:480-520 | the batch addStylesheet merges, as StylesheetBatch defines it |
| Bootstrap.BootstrapSmarty.AddStylesheet | src/BootstrapSmarty.php:479-524 | the stylesheet registry becomes StylesheetsAfterAdd of the old one, or is unchanged when the call throws; other registries are unchanged and keys stay distinct |
| Bootstrap.BootstrapSmarty.GetStylesheet | src/BootstrapSmarty.php:539-551 | the returned array is StylesheetsMatching of the registry |
| Bootstrap.BootstrapSmarty.AddScript | src/BootstrapSmarty.php:559-565 | the script registry becomes AddEntry of the old one; nothing else changes |
| Bootstrap.BootstrapSmarty.AddScriptSnippet | src/BootstrapSmarty.php:573-579 | the snippet registry becomes AddEntry of the old one; nothing else changes |
| Bootstrap.BootstrapSmarty.AddMessage | src/BootstrapSmarty.php:589-591 | one message is appended to the queue; everything else is unchanged |
| Bootstrap.BootstrapSmarty.Enable | src/BootstrapSmarty.php:602-634 | returns true iff the name is a known module, and the registries become Enabled of the old ones |
| StMarks.EngineDefaults | StMarksSmarty.php:119-122 | the engine's template and config defaults are arrays holding the engine's templates and configs directories under ENGINE_KEY; its compile and cache defaults are the templates_c and cache directories |
| StMarks.EngineKeyKept | StMarksSmarty.php:119-125 | whatever the application passes, the template and config settings hold the engine's directories under "engine" |
| StMarks.Checks | StMarksSmarty.php:129-138 | without application settings the sweep reads the engine's templates directory first and writes to its templates_c and cache directories last |
| StMarks.Statics.constructor | StMarksSmarty.php:5 | the singleton slot starts empty |
| StMarks.StMarksSmarty.Init | StMarksSmarty.php:119-127 | Smarty's directories are the application settings merged with the engine defaults; message and stylesheet lists start empty |
| StMarks.StMarksSmarty.Create | StMarksSmarty.php:109-149 | an occupied slot throws SINGLETON; otherwise a fresh instance with the engine-merged directories and no messages takes the slot, succeeds iff every check passes, and on success lists just the engine stylesheet |
| StMarks.StMarksSmarty.ListEngineStylesheet | StMarksSmarty.php:147 | the empty stylesheet list becomes just the engine stylesheet under the application URL; messages and directories are unchanged |
| StMarks.StMarksSmarty.GetSmarty | StMarksSmarty.php:92-97 | the stored instance when there is one; otherwise a fresh instance is constructed into the slot, and the call throws the first failing check's code or returns it holding the engine-merged directories, just the engine stylesheet and no messages |
| StMarks.StMarksSmarty.AddMessage | StMarksSmarty.php:173-175 | one message, of class "message" unless given, is appended to the queue; everything else is unchanged |

## Left out

- Smarty itself is not modelled: the parent constructor, Smarty's own
  normalisation of directory settings in setTemplateDir/setConfigDir/setCompileDir/setCacheDir,
  `assign`, `display` and template rendering. The settings are handed over as computed.
- addTemplateDir and addConfigDir are not modelled. When the key is empty or
  not yet set, addTemplateDir (src/BootstrapSmarty.php:422-434) wraps a keyed
  directory as `array($key => $template)` and hands
  `appendUiDefaults($template, $this->getTemplateDir())` to setTemplateDir;
  otherwise it defers to Smarty's own addTemplateDir. Both paths depend on
  Smarty's directory store, which is not modelled. addConfigDir
  (src/BootstrapSmarty.php:453-463) has the same shape, but as written the
  first path passes null (the undefined `$template`, which PHP only warns
  about) to Smarty's addConfigDir instead of `$config`, and the second path
  throws an Error on the undefined `$self` in `$self::appendUiDefaults`.
- `__clone` and `__wakeup`, which only guard against copies of the singleton.
- The URL computation from `$_SERVER` and DataUtilities: the page URL, enable's
  asset URL and StMarksSmarty's application URL are parameters.
- The template variables the constructors `assign` to Smarty are not
  modelled: BOOTSTRAPSMARTY_URL, name, category, navbarActive and the three
  MODULE_* names (src/BootstrapSmarty.php:291, 293-298), and StMarksSmarty's
  metadata and stylesheets (StMarksSmarty.php:145, 148).
- Bootstrap.BootstrapSmarty.Create: the `realpath` results for the package's
  directories are parameters (`UiPaths`). StMarks.StMarksSmarty.Create takes
  the class file's directory as a parameter.
- DirectoryGuard.CheckAll: the filesystem's answers are given per check in
  order (`Probe`). The mkdir/chmod calls the checks make are returned but not
  applied to a modelled filesystem, and the exception texts are not modelled.
- DirectoryMerge.MergeDirectories: requires array defaults when array mode
  merges a non-empty application directory. The source has no such check, and
  every caller passes array defaults there.
- Regular expressions are modelled only for keys without regex
  metacharacters. A key such as a module name with `/`, or one with `.` or
  `*`, would change the pattern in PHP.
- Key arguments, and enable's module name, are strings, with "" standing for
  null and every other empty value; non-string keys (integers, arrays) are not
  modelled. PHP's `switch` in enable compares loosely, so `enable(true)`
  would select the first case (src/BootstrapSmarty.php:604-605); that is not
  modelled. Values are null,
  booleans, integers, strings and arrays; floats and objects are left out.
- Array keys are not required to be normal: the model's predicates admit a
  string key such as "5" that PHP would store as the integer 5, so an
  associative argument to addStylesheet may carry one. The keys the model
  itself writes go through KeyOf and are normal.
- Integer keys are unbounded: PHP's 64-bit limit on keys and on `$a[] =` is not
  modelled.
- PhpArrays.NextIndex: follows the rule of PHP before 8.3, where `$a[] =` in
  an array whose integer keys are all negative uses 0. PHP 8.3 and later use
  one past the largest key even when it is negative; that rule is not modelled.
- Bootstrap.BootstrapSmarty.AddMessage: the default class NotificationMessage::INFO
  is defined in src/NotificationMessage.php, which is not part of this model, so
  the class is always passed explicitly.
- The example driver examples/test.php is not modelled.
