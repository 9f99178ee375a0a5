/**
 * The asset registries of BootstrapSmarty as functions of their previous
 * contents: what addStylesheet, getStylesheet, addScript, addScriptSnippet
 * and enable make of them. The class in bootstrap_smarty.dfy performs the
 * same updates step by step and is proved against these functions.
 */
module AssetRegistry {
  import opened Wrappers
  import opened Errors
  import opened PhpStrings
  import opened PhpArrays
  import DirectoryMerge

  /** `empty($key)` for a key argument; "" stands for the default null. */
  predicate EmptyKey(key: string)
    ensures EmptyKey(key) <==> IsEmpty(Str(key))
  {
    key == "" || key == "0"
  }

  /** The name addStylesheet files under: the argument, or APP_KEY when it is empty. */
  function EffectiveKey(key: string): (k: string)
    ensures k != "" && !EmptyKey(k)
  {
    if EmptyKey(key) then DirectoryMerge.AppKey else key
  }

  /** Some key of the array is a string (the argument is treated as associative). */
  predicate HasStringKey(a: PArray) {
    exists i :: 0 <= i < |a| && a[i].key.StrKey?
  }

  predicate AllStrings(vs: seq<Value>) {
    forall i :: 0 <= i < |vs| ==> vs[i].Str?
  }

  // ---------------------------------------------------------------- addStylesheet

  /** The array key PHP stores for the name `{$k}-{$n}`. */
  function NumberedKey(k: string, n: nat): Key {
    KeyOf(k + "-" + Dec(n))
  }

  lemma NumberedKeyIsString(k: string, n: nat)
    requires k != ""
    ensures NumberedKey(k, n) == StrKey(k + "-" + Dec(n))
  {
    DashedKeyIsString(k, n);
  }

  /** Different counters give different names. */
  lemma NumberedKeyInjective(k: string, m: nat, n: nat)
    requires k != "" && NumberedKey(k, m) == NumberedKey(k, n)
    ensures m == n
  {
    NumberedKeyIsString(k, m);
    NumberedKeyIsString(k, n);
    var p := k + "-";
    assert p + Dec(m) == p + Dec(n);
    assert Dec(m) == (p + Dec(m))[|p|..];
    assert Dec(n) == (p + Dec(n))[|p|..];
    DecInjective(m, n);
  }

  lemma LabeledKeysApart(vs: seq<Value>, k: string, c: nat, i: int, j: int)
    requires k != "" && 0 <= i < j < |vs|
    ensures Labeled(vs, k, c)[i].key != Labeled(vs, k, c)[j].key
  {
    var r := Labeled(vs, k, c);
    var ki, kj := r[i].key, r[j].key;
    assert ki == NumberedKey(k, c + i) && kj == NumberedKey(k, c + j);
    if ki == kj {
      NumberedKeyInjective(k, c + i, c + j);
    }
  }

  /** The list entries labelled `k-c`, `k-(c+1)`, ... in list order. */
  function Labeled(vs: seq<Value>, k: string, c: nat): (r: PArray)
    ensures |r| == |vs|
    ensures forall i :: 0 <= i < |vs| ==> r[i] == Entry(NumberedKey(k, c + i), vs[i])
    decreases |vs|
  {
    if vs == [] then [] else [Entry(NumberedKey(k, c), vs[0])] + Labeled(vs[1..], k, c + 1)
  }

  lemma LabeledUnique(vs: seq<Value>, k: string, c: nat)
    requires k != ""
    ensures Unique(Labeled(vs, k, c))
  {
    forall i, j | 0 <= i < j < |vs| ensures Labeled(vs, k, c)[i].key != Labeled(vs, k, c)[j].key {
      LabeledKeysApart(vs, k, c, i, j);
    }
  }

  /**
   * The numbering loop of addStylesheet: each element goes under
   * `{$k}-{$counter}` and the counter goes up by one; a non-string element
   * throws NOT_A_URL.
   */
  function NumberFrom(acc: PArray, rest: seq<Value>, k: string, counter: nat): (r: Result<PArray, ErrorCode>)
    ensures r.Failure? <==> !AllStrings(rest)
    ensures r.Failure? ==> r.error == NotAUrl
    decreases |rest|
  {
    if rest == [] then Success(acc)
    else if !rest[0].Str? then
      assert !AllStrings(rest);
      Failure(NotAUrl)
    else
      var r := NumberFrom(Assign(acc, NumberedKey(k, counter), rest[0]), rest[1..], k, counter + 1);
      assert AllStrings(rest) <==> AllStrings(rest[1..]) by {
        if AllStrings(rest[1..]) {
          forall i | 0 <= i < |rest| ensures rest[i].Str? {
            if i > 0 { assert rest[i] == rest[1..][i - 1]; }
          }
        }
      }
      r
  }

  /** With none of the names in use, the loop appends the labelled list. */
  lemma {:induction false} NumberFromLabels(acc: PArray, rest: seq<Value>, k: string, c: nat)
    requires k != "" && AllStrings(rest)
    requires forall n: nat :: n >= c ==> NumberedKey(k, n) !in KeySet(acc)
    ensures NumberFrom(acc, rest, k, c) == Success(acc + Labeled(rest, k, c))
    decreases |rest|
  {
    if rest != [] {
      var e := Entry(NumberedKey(k, c), rest[0]);
      var acc' := acc + [e];
      LabelStep(acc, rest, k, c);
      NumberFromLabels(acc', rest[1..], k, c + 1);
      AppendLabeled(acc, rest, k, c);
    } else {
      assert acc + Labeled(rest, k, c) == acc;
    }
  }

  lemma AppendLabeled(acc: PArray, rest: seq<Value>, k: string, c: nat)
    requires rest != []
    ensures acc + Labeled(rest, k, c) == (acc + [Entry(NumberedKey(k, c), rest[0])]) + Labeled(rest[1..], k, c + 1)
  {
  }

  /** One turn of the numbering loop, with the facts the next turn needs. */
  lemma LabelStep(acc: PArray, rest: seq<Value>, k: string, c: nat)
    requires k != "" && AllStrings(rest) && rest != []
    requires forall n: nat :: n >= c ==> NumberedKey(k, n) !in KeySet(acc)
    ensures var acc' := acc + [Entry(NumberedKey(k, c), rest[0])];
      && NumberFrom(acc, rest, k, c) == NumberFrom(acc', rest[1..], k, c + 1)
      && AllStrings(rest[1..])
      && forall n: nat :: n >= c + 1 ==> NumberedKey(k, n) !in KeySet(acc')
  {
    var e := Entry(NumberedKey(k, c), rest[0]);
    var acc' := acc + [e];
    assert Assign(acc, e.key, e.val) == acc';
    LookupAppend(acc, e, e.key);
    forall n: nat | n >= c + 1 ensures NumberedKey(k, n) !in KeySet(acc') {
      if NumberedKey(k, n) == e.key {
        NumberedKeyInjective(k, n, c);
      }
    }
    assert AllStrings(rest[1..]) by {
      forall i | 0 <= i < |rest[1..]| ensures rest[1..][i].Str? {
        assert rest[1..][i] == rest[i + 1];
      }
    }
  }

  /** The start of the numbering: always 1, whatever names the registry holds. */
  const FirstNumber: nat := 1

  /**
   * The counter addStylesheet's first loop computes. That loop walks
   * `array_keys(...) as $name => $s`, so `$name` is the position 0, 1, ...
   * rather than a stylesheet name; at each position whose decimal form
   * matches `{$k}-(\d+)` it raises the counter to the captured number plus one.
   */
  function ScanCounter(positions: nat, k: string): (c: int)
    ensures c >= FirstNumber
  {
    if positions == 0 then FirstNumber
    else
      var c := ScanCounter(positions - 1, k);
      match FindNumbered(k, Dec(positions - 1))
      case Some(n) => Max(c, n + 1)
      case None => c
  }

  /** No position ever matches, so the numbering starts at FirstNumber whatever the registry holds. */
  lemma {:induction false} ScanCounterIsFirst(positions: nat, k: string)
    ensures ScanCounter(positions, k) == FirstNumber
  {
    if positions > 0 {
      ScanCounterIsFirst(positions - 1, k);
      FindNumberedDigits(k, Dec(positions - 1));
    }
  }

  /**
   * The array addStylesheet builds before merging it into the registry: an
   * associative array as given, a list numbered from FirstNumber, a single
   * string under the effective key; anything else throws NOT_A_URL.
   */
  function StylesheetBatch(s: Value, key: string): (r: Result<PArray, ErrorCode>)
    ensures r.Failure? <==>
      (!s.Arr? && !s.Str?) || (s.Arr? && !HasStringKey(s.entries) && !AllStrings(Values(s.entries)))
    ensures r.Failure? ==> r.error == NotAUrl
  {
    var k := EffectiveKey(key);
    if s.Arr? && HasStringKey(s.entries) then Success(s.entries)
    else if s.Arr? then NumberFrom([], Values(s.entries), k, FirstNumber)
    else if s.Str? then Success(Assign([], KeyOf(k), s))
    else Failure(NotAUrl)
  }

  /** The registry after addStylesheet: the batch `array_replace`d into it, or the exception. */
  function StylesheetsAfterAdd(reg: PArray, s: Value, key: string): (r: Result<PArray, ErrorCode>)
    ensures s.Str? ==> r.Success?
    ensures r.Failure? ==> r.error == NotAUrl
  {
    match StylesheetBatch(s, key)
    case Success(batch) => Success(ArrayReplace(reg, batch))
    case Failure(e) => Failure(e)
  }

  lemma ArrayReplaceOne(a: PArray, e: Entry)
    ensures ArrayReplace(a, [e]) == Assign(a, e.key, e.val)
  {
    assert [e][1..] == [];
  }

  /** `array_replace` with a one-entry array rewrites that key in place or appends it. */
  lemma AssignInPlace(reg: PArray, kk: Key, v: Value)
    requires Unique(reg)
    ensures var r := Assign(reg, kk, v);
      && Lookup(r, kk) == Some(v)
      && (forall k' :: k' != kk ==> Lookup(r, k') == Lookup(reg, k'))
      && (forall i :: 0 <= i < |reg| ==> r[i] == if reg[i].key == kk then Entry(kk, v) else reg[i])
      && (kk in KeySet(reg) ==> |r| == |reg|)
      && (kk !in KeySet(reg) ==> r == reg + [Entry(kk, v)])
      && Unique(r)
  {
    var r := Assign(reg, kk, v);
    AssignUnique(reg, kk, v);
    forall k' {
      AssignLookup(reg, kk, v, k');
    }
    forall i | 0 <= i < |reg| && reg[i].key == kk ensures r[i] == Entry(kk, v) {
      LookupAt(r, i);
    }
  }

  /**
   * addStylesheet with one URL: the entry under the effective key is
   * rewritten in place if the key is present and appended otherwise; every
   * other entry keeps its position and value.
   */
  lemma AddSingleStylesheet(reg: PArray, url: string, key: string)
    requires Unique(reg)
    ensures var kk := KeyOf(EffectiveKey(key));
      var r := StylesheetsAfterAdd(reg, Str(url), key).value;
      && Lookup(r, kk) == Some(Str(url))
      && (forall k' :: k' != kk ==> Lookup(r, k') == Lookup(reg, k'))
      && (forall i :: 0 <= i < |reg| ==> r[i] == if reg[i].key == kk then Entry(kk, Str(url)) else reg[i])
      && (kk in KeySet(reg) ==> |r| == |reg|)
      && (kk !in KeySet(reg) ==> r == reg + [Entry(kk, Str(url))])
      && Unique(r)
  {
    var kk := KeyOf(EffectiveKey(key));
    var e := Entry(kk, Str(url));
    assert Assign([], kk, Str(url)) == [e];
    ArrayReplaceOne(reg, e);
    AssignInPlace(reg, kk, Str(url));
  }

  /** addStylesheet with a list of URLs files them as `key-1`, `key-2`, ... in list order. */
  lemma AddStylesheetList(reg: PArray, s: Value, key: string)
    requires s.Arr? && !HasStringKey(s.entries) && AllStrings(Values(s.entries))
    ensures StylesheetsAfterAdd(reg, s, key)
      == Success(ArrayReplace(reg, Labeled(Values(s.entries), EffectiveKey(key), FirstNumber)))
  {
    var vs, k := Values(s.entries), EffectiveKey(key);
    var batch := Labeled(vs, k, FirstNumber);
    NumberFromLabels([], vs, k, FirstNumber);
    assert [] + batch == batch;
    assert StylesheetBatch(s, key) == Success(batch);
  }

  /**
   * What merging the numbered list does to the registry: the n-th URL sits
   * under `key-n`, present names are rewritten in place, absent ones appended
   * in list order, and every other entry is unchanged.
   */
  lemma NumberedListMerged(reg: PArray, vs: seq<Value>, key: string)
    requires Unique(reg)
    ensures var k := EffectiveKey(key);
      var batch := Labeled(vs, k, FirstNumber);
      var r := ArrayReplace(reg, batch);
      && (forall j :: 0 <= j < |vs| ==> Lookup(r, StrKey(k + "-" + Dec(j + 1))) == Some(vs[j]))
      && (forall k' :: k' !in KeySet(batch) ==> Lookup(r, k') == Lookup(reg, k'))
      && |r| >= |reg|
      && (forall i :: 0 <= i < |reg| ==> r[i].key == reg[i].key)
      && r[|reg|..] == Absent(batch, KeySet(reg))
      && Unique(r)
  {
    var k := EffectiveKey(key);
    var batch := Labeled(vs, k, FirstNumber);
    var r := ArrayReplace(reg, batch);
    LabeledUnique(vs, k, FirstNumber);
    ArrayReplaceAppends(reg, batch);
    ArrayReplaceUnique(reg, batch);
    forall k' {
      ArrayReplaceLookup(reg, batch, k');
    }
    forall j | 0 <= j < |vs| ensures Lookup(r, StrKey(k + "-" + Dec(j + 1))) == Some(vs[j]) {
      NumberedKeyIsString(k, j + 1);
      LookupAt(batch, j);
    }
  }

  /** addStylesheet with an associative array merges it as given, whatever its values. */
  lemma AddStylesheetAssociative(reg: PArray, s: Value, key: string)
    requires s.Arr? && HasStringKey(s.entries)
    ensures StylesheetsAfterAdd(reg, s, key) == Success(ArrayReplace(reg, s.entries))
  {
  }

  /**
   * The numbering does not continue from names already present: adding a
   * one-element list under "mod" to a registry holding "mod-1" overwrites it.
   */
  lemma NumberingRestartsAtOne()
    ensures StylesheetsAfterAdd([Entry(StrKey("mod-1"), Str("a.css"))], Arr([Entry(IntKey(0), Str("b.css"))]), "mod")
      == Success([Entry(StrKey("mod-1"), Str("b.css"))])
  {
    var s := Arr([Entry(IntKey(0), Str("b.css"))]);
    assert !HasStringKey(s.entries);
    assert Values(s.entries) == [Str("b.css")];
    assert Dec(1) == "1";
    NumberedKeyIsString("mod", 1);
    assert [Str("b.css")][1..] == [];
    assert "mod" + "-" + Dec(1) == "mod-1";
    assert Labeled([Str("b.css")], "mod", 1) == [Entry(StrKey("mod-1"), Str("b.css"))];
    AddStylesheetList([Entry(StrKey("mod-1"), Str("a.css"))], s, "mod");
    ArrayReplaceOne([Entry(StrKey("mod-1"), Str("a.css"))], Entry(StrKey("mod-1"), Str("b.css")));
  }

  // ---------------------------------------------------------------- getStylesheet

  /** Whether getStylesheet's pattern for `key` matches the name of `e`: `key` occurs in it. */
  predicate NameMatches(e: Entry, key: string) {
    Contains(KeyString(e.key), key)
  }

  /** The entries whose names match, in registry order. */
  function Filtered(a: PArray, key: string): (r: PArray)
    ensures |r| <= |a|
    decreases |a|
  {
    if a == [] then []
    else
      var last := a[|a| - 1];
      Filtered(a[..|a| - 1], key) + (if NameMatches(last, key) then [last] else [])
  }

  /** What getStylesheet returns: everything for an empty key, the matching entries otherwise. */
  function StylesheetsMatching(reg: PArray, key: string): (r: PArray)
    ensures EmptyKey(key) ==> r == reg
  {
    if EmptyKey(key) then reg else Filtered(reg, key)
  }

  /** The filter keeps exactly the matching entries ... */
  lemma {:induction false} FilteredSelects(a: PArray, key: string)
    ensures forall e :: e in Filtered(a, key) <==> e in a && NameMatches(e, key)
    decreases |a|
  {
    if a != [] {
      var init := a[..|a| - 1];
      FilteredSelects(init, key);
      assert a == init + [a[|a| - 1]];
    }
  }

  /** ... in their original order, and distributes over concatenation. */
  lemma {:induction false} FilteredConcat(a: PArray, b: PArray, key: string)
    ensures Filtered(a + b, key) == Filtered(a, key) + Filtered(b, key)
    decreases |b|
  {
    if b == [] {
      assert a + b == a;
    } else {
      var init := b[..|b| - 1];
      assert (a + b)[..|a + b| - 1] == a + init;
      FilteredConcat(a, init, key);
    }
  }

  /** The names the documentation promises are selected: `key` itself and `key-n`. */
  lemma NumberedNamesMatch(key: string, n: nat)
    requires key != ""
    ensures NameMatches(Entry(StrKey(key), Null), key)
    ensures NameMatches(Entry(NumberedKey(key, n), Null), key)
  {
    ContainsIff(key, key);
    assert OccursAt(key, key, 0);
    NumberedKeyIsString(key, n);
    var t := key + "-" + Dec(n);
    ContainsIff(t, key);
    assert t[0..|key|] == key;
    assert OccursAt(t, key, 0);
  }

  /** The pattern is unanchored: a name merely containing the key is selected too. */
  lemma SubstringNamesMatch()
    ensures StylesheetsMatching([Entry(StrKey("webapp"), Str("w.css"))], "app")
      == [Entry(StrKey("webapp"), Str("w.css"))]
  {
    var e := Entry(StrKey("webapp"), Str("w.css"));
    ContainsIff("webapp", "app");
    assert "webapp"[3..6] == "app";
    assert OccursAt("webapp", "app", 3);
    assert [e][..0] == [];
  }

  lemma {:induction false} FilteredKeys(a: PArray, key: string)
    ensures KeySet(Filtered(a, key)) <= KeySet(a)
    decreases |a|
  {
    if a != [] {
      var init := a[..|a| - 1];
      FilteredKeys(init, key);
      assert a == init + [a[|a| - 1]];
      LookupAppend(init, a[|a| - 1], a[|a| - 1].key);
      if NameMatches(a[|a| - 1], key) {
        LookupAppend(Filtered(init, key), a[|a| - 1], a[|a| - 1].key);
      } else {
        assert Filtered(a, key) == Filtered(init, key) + [];
        assert Filtered(init, key) + [] == Filtered(init, key);
      }
    }
  }

  // ---------------------------------------------------------------- scripts and snippets

  /** addScript / addScriptSnippet: `$a[] = $v` for an empty key, `$a[$key] = $v` otherwise. */
  function AddEntry(reg: PArray, v: Value, key: string): (r: PArray)
    ensures EmptyKey(key) ==> r == reg + [Entry(IntKey(NextIndex(reg)), v)] && IntKey(NextIndex(reg)) !in KeySet(reg)
    ensures !EmptyKey(key) ==> Lookup(r, KeyOf(key)) == Some(v)
    ensures Unique(reg) ==> Unique(r)
  {
    if EmptyKey(key) then Push(reg, v)
    else
      AssignLookup(reg, KeyOf(key), v, KeyOf(key));
      AssignUniqueIf(reg, KeyOf(key), v);
      Assign(reg, KeyOf(key), v)
  }

  lemma AssignUniqueIf(a: PArray, k: Key, v: Value)
    ensures Unique(a) ==> Unique(Assign(a, k, v))
  {
    if Unique(a) {
      AssignUnique(a, k, v);
    }
  }

  /** Assigning the value a key already holds changes nothing. */
  lemma {:induction false} AssignSame(a: PArray, k: Key, v: Value)
    requires Lookup(a, k) == Some(v)
    ensures Assign(a, k, v) == a
    decreases |a|
  {
    if a[0].key != k {
      AssignSame(a[1..], k, v);
    }
  }

  /** A keyed add is a replacement: repeating it changes nothing. */
  lemma AddEntryKeyedIdempotent(reg: PArray, v: Value, key: string)
    requires !EmptyKey(key)
    ensures AddEntry(AddEntry(reg, v, key), v, key) == AddEntry(reg, v, key)
  {
    AssignSame(AddEntry(reg, v, key), KeyOf(key), v);
  }

  /** A keyed add leaves every other key as it was. */
  lemma AddEntryOthers(reg: PArray, v: Value, key: string, k': Key)
    requires !EmptyKey(key) && k' != KeyOf(key)
    ensures Lookup(AddEntry(reg, v, key), k') == Lookup(reg, k')
  {
    AssignLookup(reg, KeyOf(key), v, k');
  }

  // ---------------------------------------------------------------- enable

  const ModuleDatepicker: string := "eternicode/bootstrap-datepicker"
  const ModuleColorpicker: string := "mjolnic/bootstrap-colorpicker"
  const ModuleSortable: string := "drvic10k/bootstrap-sortable"

  /** The key of the script the sortable module needs loaded first. */
  const SortablePrerequisite: string := "required by " + ModuleSortable

  /** Asset paths, relative to the asset URL. */
  const DatepickerCss: string := "/bower-asset/bootstrap-datepicker/dist/css/bootstrap-datepicker.min.css"
  const DatepickerJs: string := "/bower-asset/bootstrap-datepicker/dist/js/bootstrap-datepicker.min.js"
  const ColorpickerCss: string := "/bower-asset/xaguilars-bootstrap-colorpicker/dist/css/bootstrap-colorpicker.min.css"
  const ColorpickerJs: string := "/bower-asset/xaguilars-bootstrap-colorpicker/dist/js/bootstrap-colorpicker.min.js"
  const SortableCss: string := "/bower-asset/bootstrap-sortable/Contents/bootstrap-sortable.css"
  const MomentJs: string := "/bower-asset/moment/min/moment.min.js"
  const SortableJs: string := "/bower-asset/bootstrap-sortable/Scripts/bootstrap-sortable.js"

  /** The start-up snippets, whitespace included. */
  const DatepickerSnippet: string :=
    "\n\t\t\t\t\t$('.input-group.date').datepicker({\n\t\t\t\t\t\torientation: 'top auto',\n\t\t\t\t\t    autoclose: true,\n\t\t\t\t\t    todayHighlight: true\n\t\t\t\t\t});\n\t\t\t\t"
  const ColorpickerSnippet: string := "\n\t\t\t\t\t$('.input-group.color').colorpicker();\n\t\t\t\t"

  predicate IsModule(name: string) {
    name == ModuleDatepicker || name == ModuleColorpicker || name == ModuleSortable
  }

  /** The three registries. */
  datatype Assets = Assets(stylesheets: PArray, scripts: PArray, snippets: PArray)

  /** addStylesheet with a single URL, which never throws. */
  function AddStylesheetUrl(reg: PArray, url: string, key: string): (r: PArray)
    ensures Unique(reg) ==> Unique(r)
  {
    var batch := StylesheetBatch(Str(url), key).value;
    if Unique(reg) then
      ArrayReplaceUnique(reg, batch);
      StylesheetsAfterAdd(reg, Str(url), key).value
    else
      StylesheetsAfterAdd(reg, Str(url), key).value
  }

  /**
   * A module that registers one stylesheet, one script and one snippet, all
   * under its own name.
   */
  function KeyedModule(a: Assets, name: string, cssUrl: string, jsUrl: string, snippet: string): (r: Assets)
    ensures Unique(a.stylesheets) && Unique(a.scripts) && Unique(a.snippets) ==>
      Unique(r.stylesheets) && Unique(r.scripts) && Unique(r.snippets)
  {
    Assets(
      AddStylesheetUrl(a.stylesheets, cssUrl, name),
      AddEntry(a.scripts, Str(jsUrl), name),
      AddEntry(a.snippets, Str(snippet), name))
  }

  /**
   * A module that registers a stylesheet under its name, a prerequisite
   * script under another name, then its own script; no snippet.
   */
  function PrerequisiteModule(a: Assets, name: string, cssUrl: string, prereq: string, prereqUrl: string, jsUrl: string): (r: Assets)
    ensures r.snippets == a.snippets
    ensures Unique(a.stylesheets) && Unique(a.scripts) ==> Unique(r.stylesheets) && Unique(r.scripts)
  {
    Assets(
      AddStylesheetUrl(a.stylesheets, cssUrl, name),
      AddEntry(AddEntry(a.scripts, Str(prereqUrl), prereq), Str(jsUrl), name),
      a.snippets)
  }

  /** The registries after `enable(name)`, with `assetUrl` the location of the bundled assets. */
  function Enabled(a: Assets, name: string, assetUrl: string): (r: Assets)
    ensures !IsModule(name) ==> r == a
  {
    if name == ModuleDatepicker then
      KeyedModule(a, ModuleDatepicker, assetUrl + DatepickerCss, assetUrl + DatepickerJs, DatepickerSnippet)
    else if name == ModuleColorpicker then
      KeyedModule(a, ModuleColorpicker, assetUrl + ColorpickerCss, assetUrl + ColorpickerJs, ColorpickerSnippet)
    else if name == ModuleSortable then
      PrerequisiteModule(a, ModuleSortable, assetUrl + SortableCss, SortablePrerequisite, assetUrl + MomentJs, assetUrl + SortableJs)
    else a
  }

  /** A name PHP keeps as a string key: it does not start with a digit or a minus sign. */
  predicate PlainName(s: string) {
    |s| > 0 && !IsDigit(s[0]) && s[0] != '-'
  }

  lemma PlainKey(s: string)
    requires PlainName(s)
    ensures KeyOf(s) == StrKey(s) && !EmptyKey(s)
  {
  }

  lemma ModuleKeysArePlain()
    ensures KeyOf(ModuleDatepicker) == StrKey(ModuleDatepicker)
    ensures KeyOf(ModuleColorpicker) == StrKey(ModuleColorpicker)
    ensures KeyOf(ModuleSortable) == StrKey(ModuleSortable)
    ensures KeyOf(SortablePrerequisite) == StrKey(SortablePrerequisite)
  {
    PlainKey(ModuleDatepicker);
    PlainKey(ModuleColorpicker);
    PlainKey(ModuleSortable);
    PlainKey(SortablePrerequisite);
  }

  /** A keyed single-URL addStylesheet is `$reg[$key] = $url`. */
  lemma AddStylesheetUrlIsAssign(reg: PArray, url: string, key: string)
    requires !EmptyKey(key)
    ensures AddStylesheetUrl(reg, url, key) == Assign(reg, KeyOf(key), Str(url))
  {
    var e := Entry(KeyOf(key), Str(url));
    assert Assign([], KeyOf(key), Str(url)) == [e];
    ArrayReplaceOne(reg, e);
  }

  /** What a keyed module writes: its name holds the three assets, every other key is as before. */
  lemma KeyedModuleLookups(a: Assets, name: string, cssUrl: string, jsUrl: string, snippet: string, k: Key)
    requires PlainName(name)
    ensures var r := KeyedModule(a, name, cssUrl, jsUrl, snippet);
      && Lookup(r.stylesheets, StrKey(name)) == Some(Str(cssUrl))
      && Lookup(r.scripts, StrKey(name)) == Some(Str(jsUrl))
      && Lookup(r.snippets, StrKey(name)) == Some(Str(snippet))
      && (k != StrKey(name) ==>
            && Lookup(r.stylesheets, k) == Lookup(a.stylesheets, k)
            && Lookup(r.scripts, k) == Lookup(a.scripts, k)
            && Lookup(r.snippets, k) == Lookup(a.snippets, k))
  {
    PlainKey(name);
    AddStylesheetUrlIsAssign(a.stylesheets, cssUrl, name);
    AssignLookup(a.stylesheets, KeyOf(name), Str(cssUrl), k);
    AssignLookup(a.stylesheets, KeyOf(name), Str(cssUrl), KeyOf(name));
    if k != StrKey(name) {
      AddEntryOthers(a.scripts, Str(jsUrl), name, k);
      AddEntryOthers(a.snippets, Str(snippet), name, k);
    }
  }

  /** What a module with a prerequisite writes: its name and the prerequisite's name, nothing else. */
  lemma PrerequisiteModuleLookups(a: Assets, name: string, cssUrl: string, prereq: string, prereqUrl: string, jsUrl: string, k: Key)
    requires PlainName(name) && PlainName(prereq) && name != prereq
    ensures var r := PrerequisiteModule(a, name, cssUrl, prereq, prereqUrl, jsUrl);
      && Lookup(r.stylesheets, StrKey(name)) == Some(Str(cssUrl))
      && Lookup(r.scripts, StrKey(prereq)) == Some(Str(prereqUrl))
      && Lookup(r.scripts, StrKey(name)) == Some(Str(jsUrl))
      && r.snippets == a.snippets
      && (k != StrKey(name) && k != StrKey(prereq) ==>
            && Lookup(r.stylesheets, k) == Lookup(a.stylesheets, k)
            && Lookup(r.scripts, k) == Lookup(a.scripts, k))
  {
    PlainKey(name);
    PlainKey(prereq);
    var s1 := AddEntry(a.scripts, Str(prereqUrl), prereq);
    AddStylesheetUrlIsAssign(a.stylesheets, cssUrl, name);
    AssignLookup(a.stylesheets, KeyOf(name), Str(cssUrl), k);
    AssignLookup(a.stylesheets, KeyOf(name), Str(cssUrl), KeyOf(name));
    AddEntryOthers(s1, Str(jsUrl), name, KeyOf(prereq));
    if k != StrKey(name) && k != StrKey(prereq) {
      AddEntryOthers(a.scripts, Str(prereqUrl), prereq, k);
      AddEntryOthers(s1, Str(jsUrl), name, k);
    }
  }

  lemma KeyedModuleIdempotent(a: Assets, name: string, cssUrl: string, jsUrl: string, snippet: string)
    requires PlainName(name)
    ensures var once := KeyedModule(a, name, cssUrl, jsUrl, snippet);
      KeyedModule(once, name, cssUrl, jsUrl, snippet) == once
  {
    var once := KeyedModule(a, name, cssUrl, jsUrl, snippet);
    PlainKey(name);
    KeyedModuleLookups(a, name, cssUrl, jsUrl, snippet, StrKey(name));
    AddStylesheetUrlIsAssign(once.stylesheets, cssUrl, name);
    AssignSame(once.stylesheets, KeyOf(name), Str(cssUrl));
    AddEntryKeyedIdempotent(a.scripts, Str(jsUrl), name);
    AddEntryKeyedIdempotent(a.snippets, Str(snippet), name);
  }

  lemma PrerequisiteModuleIdempotent(a: Assets, name: string, cssUrl: string, prereq: string, prereqUrl: string, jsUrl: string)
    requires PlainName(name) && PlainName(prereq) && name != prereq
    ensures var once := PrerequisiteModule(a, name, cssUrl, prereq, prereqUrl, jsUrl);
      PrerequisiteModule(once, name, cssUrl, prereq, prereqUrl, jsUrl) == once
  {
    var once := PrerequisiteModule(a, name, cssUrl, prereq, prereqUrl, jsUrl);
    PlainKey(name);
    PlainKey(prereq);
    PrerequisiteModuleLookups(a, name, cssUrl, prereq, prereqUrl, jsUrl, StrKey(name));
    AddStylesheetUrlIsAssign(once.stylesheets, cssUrl, name);
    AssignSame(once.stylesheets, KeyOf(name), Str(cssUrl));
    AssignSame(once.scripts, KeyOf(prereq), Str(prereqUrl));
    AssignSame(once.scripts, KeyOf(name), Str(jsUrl));
  }

  /** Enabling a module twice leaves the registries as enabling it once. */
  lemma EnableIdempotent(a: Assets, name: string, assetUrl: string)
    ensures Enabled(Enabled(a, name, assetUrl), name, assetUrl) == Enabled(a, name, assetUrl)
  {
    if name == ModuleDatepicker {
      KeyedModuleIdempotent(a, name, assetUrl + DatepickerCss, assetUrl + DatepickerJs, DatepickerSnippet);
    } else if name == ModuleColorpicker {
      KeyedModuleIdempotent(a, name, assetUrl + ColorpickerCss, assetUrl + ColorpickerJs, ColorpickerSnippet);
    } else if name == ModuleSortable {
      PrerequisiteModuleIdempotent(a, name, assetUrl + SortableCss, SortablePrerequisite, assetUrl + MomentJs, assetUrl + SortableJs);
    }
  }

  /** The keys `enable(name)` writes. */
  function ModuleKeys(name: string): set<Key> {
    if name == ModuleSortable then {StrKey(ModuleSortable), StrKey(SortablePrerequisite)}
    else {StrKey(name)}
  }

  /** Enabling a module writes no key but its own (and the sortable module's prerequisite). */
  lemma EnableWritesOnlyModuleKeys(a: Assets, name: string, assetUrl: string, k: Key)
    requires IsModule(name) && k !in ModuleKeys(name)
    ensures var r := Enabled(a, name, assetUrl);
      && Lookup(r.stylesheets, k) == Lookup(a.stylesheets, k)
      && Lookup(r.scripts, k) == Lookup(a.scripts, k)
      && Lookup(r.snippets, k) == Lookup(a.snippets, k)
  {
    if name == ModuleDatepicker {
      KeyedModuleLookups(a, name, assetUrl + DatepickerCss, assetUrl + DatepickerJs, DatepickerSnippet, k);
    } else if name == ModuleColorpicker {
      KeyedModuleLookups(a, name, assetUrl + ColorpickerCss, assetUrl + ColorpickerJs, ColorpickerSnippet, k);
    } else {
      PrerequisiteModuleLookups(a, name, assetUrl + SortableCss, SortablePrerequisite, assetUrl + MomentJs, assetUrl + SortableJs, k);
    }
  }

  /** After enabling, the module's keys hold its stylesheet, scripts and snippet. */
  lemma EnableRegistersModule(a: Assets, name: string, assetUrl: string)
    requires IsModule(name)
    ensures var r := Enabled(a, name, assetUrl);
      && Lookup(r.stylesheets, StrKey(name)) == Some(Str(assetUrl +
           if name == ModuleDatepicker then DatepickerCss
           else if name == ModuleColorpicker then ColorpickerCss else SortableCss))
      && (name == ModuleSortable ==>
            && Lookup(r.scripts, StrKey(SortablePrerequisite)) == Some(Str(assetUrl + MomentJs))
            && Lookup(r.scripts, StrKey(ModuleSortable)) == Some(Str(assetUrl + SortableJs))
            && r.snippets == a.snippets)
      && (name == ModuleDatepicker ==>
            && Lookup(r.scripts, StrKey(name)) == Some(Str(assetUrl + DatepickerJs))
            && Lookup(r.snippets, StrKey(name)) == Some(Str(DatepickerSnippet)))
      && (name == ModuleColorpicker ==>
            && Lookup(r.scripts, StrKey(name)) == Some(Str(assetUrl + ColorpickerJs))
            && Lookup(r.snippets, StrKey(name)) == Some(Str(ColorpickerSnippet)))
  {
    if name == ModuleDatepicker {
      KeyedModuleLookups(a, name, assetUrl + DatepickerCss, assetUrl + DatepickerJs, DatepickerSnippet, StrKey(name));
    } else if name == ModuleColorpicker {
      KeyedModuleLookups(a, name, assetUrl + ColorpickerCss, assetUrl + ColorpickerJs, ColorpickerSnippet, StrKey(name));
    } else {
      PrerequisiteModuleLookups(a, name, assetUrl + SortableCss, SortablePrerequisite, assetUrl + MomentJs, assetUrl + SortableJs, StrKey(name));
    }
  }
}
