/**
  tools/update_progress.py: turning command-line values into JSON values,
  applying key=value updates to a problem's metadata, collecting the solution
  texts of its languages, and injecting the aggregated record into the UI
  template. meta.json is held already parsed; json.dumps is a parameter.
*/
module UpdateProgress {
  import opened Wrappers
  import opened Strings
  import opened Numbers
  import opened OrderedDict
  import opened Records
  import CreateProblem

  // ---------------------------------------------------------------------
  // parse_value
  // ---------------------------------------------------------------------

  /** The stripped pieces of a comma-separated value, as JSON strings. */
  function TagItems(parts: seq<string>): (items: seq<Json>)
    ensures |items| == |parts|
    ensures forall i :: 0 <= i < |parts| ==> items[i] == JStr(Strip(parts[i]))
  {
    seq(|parts|, i requires 0 <= i < |parts| => JStr(Strip(parts[i])))
  }

  /** parse_value: "true"/"false" in any letter case become booleans; a value
      with a comma becomes the list of its stripped comma-separated parts;
      anything else stays the string it was. */
  function ParseValue(value: string): Json
  {
    if Lower(value) == "true" then JBool(true)
    else if Lower(value) == "false" then JBool(false)
    else if ',' in value then JList(TagItems(Split(value, ",")))
    else JStr(value)
  }

  /** The three outcomes of parse_value, with the boolean check taking
      precedence over the comma check. */
  lemma ParseValueCases(value: string)
    ensures ParseValue(value) == JBool(true) <==> Lower(value) == "true"
    ensures ParseValue(value) == JBool(false) <==> Lower(value) == "false"
    ensures ParseValue(value).JList? <==>
      Lower(value) != "true" && Lower(value) != "false" && ',' in value
    ensures ParseValue(value).JList? ==>
      var items := ParseValue(value).items;
      && |items| == Count(value, ',') + 1 == |Split(value, ",")|
      && (forall i :: 0 <= i < |items| ==> items[i] == JStr(Strip(Split(value, ",")[i])))
      && forall i :: 0 <= i < |items| ==> items[i].JStr? && Stripped(items[i].s)
    ensures ParseValue(value).JStr? ==> ParseValue(value) == JStr(value) && ',' !in value
  {
    if ParseValue(value).JList? {
      SplitCount(value, ',');
    }
  }

  /** A value with a comma is never read as a boolean. */
  lemma CommaValueIsNotBoolean(value: string)
    requires ',' in value
    ensures Lower(value) != "true" && Lower(value) != "false"
  {
    var j :| 0 <= j < |value| && value[j] == ',';
    assert Lower(value)[j] == ',';
  }

  /** Tags already stripped come through TagItems unchanged. */
  lemma TagItemsOfStripped(tags: seq<string>)
    requires forall i :: 0 <= i < |tags| ==> Stripped(tags[i])
    ensures TagItems(tags) == seq(|tags|, i requires 0 <= i < |tags| => JStr(tags[i]))
  {
    forall i | 0 <= i < |tags| ensures TagItems(tags)[i] == JStr(tags[i]) {
      StripOfStripped(tags[i]);
    }
  }

  /** A comma-joined list of at least two tags that hold no comma and no
      surrounding whitespace parses back to exactly those tags, in order. */
  lemma ParseValueOfJoinedTags(tags: seq<string>)
    requires |tags| >= 2
    requires forall i :: 0 <= i < |tags| ==> ',' !in tags[i] && Stripped(tags[i])
    ensures ParseValue(Join(tags, ",")) == JList(seq(|tags|, i requires 0 <= i < |tags| => JStr(tags[i])))
  {
    var v := Join(tags, ",");
    assert v == tags[0] + "," + Join(tags[1..], ",");
    assert v[|tags[0]|] == ',';
    CommaValueIsNotBoolean(v);
    assert ParseValue(v) == JList(TagItems(Split(v, ",")));
    SplitOfJoin(tags, ",");
    TagItemsOfStripped(tags);
  }

  // ---------------------------------------------------------------------
  // The update loop of update_problem
  // ---------------------------------------------------------------------

  /** The top-level metadata key an update names: what comes before the
      first '.', or the whole key when it has no dot. */
  function TopKey(key: string): string
  {
    match SplitFirst(key, '.')
    case Some((parent, _)) => parent
    case None => key
  }

  /** One iteration of the update loop. A dotted key sets the child field of
      the parent object, adding it if absent, when the parent exists and is an
      object; a plain key is set only when it already exists. Anything else is
      skipped. */
  function ApplyUpdate(meta: Dict<Json>, key: string, value: Json): Dict<Json>
  {
    match SplitFirst(key, '.')
    case Some((parent, child)) =>
      var current: Option<Json> := Get(meta, parent);
      if current.Some? && current.value.JObject? then
        Put(meta, parent, JObject(Put(current.value.fields, child, value)))
      else meta
    case None =>
      if Get(meta, key).Some? then Put(meta, key, value) else meta
  }

  /** What one update does: the key order never changes, only the entry under
      TopKey(key) can change, and how it changes. */
  lemma ApplyUpdateSpec(meta: Dict<Json>, key: string, value: Json)
    ensures var r := ApplyUpdate(meta, key, value);
      && Keys(r) == Keys(meta)
      && (forall k :: k != TopKey(key) ==> Get(r, k) == Get(meta, k))
      && ('.' !in key ==>
            if Get(meta, key).Some? then Get(r, key) == Some(value) else r == meta)
      && ('.' in key ==>
            var (parent, child) := SplitFirst(key, '.').value;
            var current: Option<Json> := Get(meta, parent);
            if current.Some? && current.value.JObject? then
              var fields' := Put(current.value.fields, child, value);
              && Get(r, parent) == Some(JObject(fields'))
              && Get(fields', child) == Some(value)
              && (forall c :: c != child ==> Get(fields', c) == Get(current.value.fields, c))
            else r == meta)
  {
    match SplitFirst(key, '.')
    case Some((parent, child)) =>
      GetSomeIffKey(meta, parent);
      var current: Option<Json> := Get(meta, parent);
      if current.Some? && current.value.JObject? {
        PutKeys(meta, parent, JObject(Put(current.value.fields, child, value)));
      }
    case None =>
      GetSomeIffKey(meta, key);
      PutKeys(meta, key, value);
  }

  /** The metadata after the first n updates, applied in order. */
  function ApplyAll(meta: Dict<Json>, updates: Dict<Json>): Dict<Json>
  {
    if updates == [] then meta
    else
      var last := updates[|updates| - 1];
      ApplyUpdate(ApplyAll(meta, updates[..|updates| - 1]), last.0, last.1)
  }

  /** The update loop: `for key, value in updates.items()`, changing meta_data
      in place. */
  method ApplyUpdates(meta: Dict<Json>, updates: Dict<Json>) returns (m: Dict<Json>)
    ensures m == ApplyAll(meta, updates)
  {
    m := meta;
    for i := 0 to |updates|
      invariant m == ApplyAll(meta, updates[..i])
    {
      assert updates[..i + 1][..i] == updates[..i];
      m := ApplyUpdate(m, updates[i].0, updates[i].1);
    }
    assert updates[..|updates|] == updates;
  }

  /** No update adds or removes a top-level key, or reorders them. */
  lemma {:induction false} ApplyAllKeepsKeys(meta: Dict<Json>, updates: Dict<Json>)
    ensures Keys(ApplyAll(meta, updates)) == Keys(meta)
  {
    if updates != [] {
      var last := updates[|updates| - 1];
      ApplyAllKeepsKeys(meta, updates[..|updates| - 1]);
      ApplyUpdateSpec(ApplyAll(meta, updates[..|updates| - 1]), last.0, last.1);
    }
  }

  /** A metadata entry that no update names is left as it was. */
  lemma {:induction false} ApplyAllUntouched(meta: Dict<Json>, updates: Dict<Json>, k: string)
    requires forall i :: 0 <= i < |updates| ==> TopKey(updates[i].0) != k
    ensures Get(ApplyAll(meta, updates), k) == Get(meta, k)
  {
    if updates != [] {
      var last := updates[|updates| - 1];
      ApplyAllUntouched(meta, updates[..|updates| - 1], k);
      ApplyUpdateSpec(ApplyAll(meta, updates[..|updates| - 1]), last.0, last.1);
    }
  }

  /** An update leaves every entry but the one under its top-level key alone. */
  lemma ApplyUpdateOther(meta: Dict<Json>, key: string, value: Json, k: string)
    requires k != TopKey(key)
    ensures Get(ApplyUpdate(meta, key, value), k) == Get(meta, k)
  {
  }

  /** A plain update of an existing key sets it. */
  lemma ApplyUpdatePlain(meta: Dict<Json>, key: string, value: Json)
    requires '.' !in key && key in Keys(meta)
    ensures Get(ApplyUpdate(meta, key, value), key) == Some(value)
  {
    GetSomeIffKey(meta, key);
  }

  /** A plain key that exists in the metadata ends up with the value of the
      last update that names it. */
  lemma {:induction false} ApplyAllLastWins(meta: Dict<Json>, updates: Dict<Json>, i: nat)
    requires i < |updates| && '.' !in updates[i].0 && updates[i].0 in Keys(meta)
    requires forall j :: i < j < |updates| ==> TopKey(updates[j].0) != updates[i].0
    ensures Get(ApplyAll(meta, updates), updates[i].0) == Some(updates[i].1)
  {
    var n := |updates| - 1;
    var prefix := updates[..n];
    var before := ApplyAll(meta, prefix);
    var k := updates[i].0;
    if i == n {
      ApplyAllKeepsKeys(meta, prefix);
      ApplyUpdatePlain(before, k, updates[n].1);
    } else {
      assert prefix[i] == updates[i];
      forall j | i < j < n ensures TopKey(prefix[j].0) != k {
        assert prefix[j] == updates[j];
      }
      ApplyAllLastWins(meta, prefix, i);
      ApplyUpdateOther(before, updates[n].0, updates[n].1, k);
    }
  }

  // ---------------------------------------------------------------------
  // Collecting the solution texts of the problem's languages
  // ---------------------------------------------------------------------

  /** read_file_content: the file's text, or "" when there is no such file. */
  function ReadFile(files: map<string, string>, path: string): (text: string)
    ensures path !in files ==> text == ""
    ensures path in files ==> text == files[path]
  {
    if path in files then files[path] else ""
  }

  /** What `for lang in meta_data.get("languages", [])` visits: nothing when
      the key is missing, a list's items, a string's characters, an object's
      keys; None when the value cannot be iterated (a TypeError). */
  function LanguageItems(meta: Dict<Json>): (items: Option<seq<Json>>)
    ensures Get(meta, "languages").None? ==> items == Some([])
    ensures items.None? <==>
      Get(meta, "languages").Some? &&
      (Get(meta, "languages").value.JNull? || Get(meta, "languages").value.JBool? ||
       Get(meta, "languages").value.JInt?)
  {
    var languages: Option<Json> := Get(meta, "languages");
    if languages.None? then Some([])
    else match languages.value
      case JList(items) => Some(items)
      case JStr(s) => Some(seq(|s|, i requires 0 <= i < |s| => JStr([s[i]])))
      case JObject(fields) => Some(seq(|fields|, i requires 0 <= i < |fields| => JStr(fields[i].0)))
      case _ => None
  }

  /** An item that config["languages"].get cannot hash: a list or an object. */
  predicate Unhashable(item: Json) { item.JList? || item.JObject? }

  /** The two solution texts of a configured language in the problem folder. */
  function SolutionTexts(folder: string, lang: LangConfig, files: map<string, string>): SolutionSet
  {
    SolutionSet(
      ReadFile(files, SolutionPath(folder, lang.name, SolutionKinds[0], lang.ext)),
      ReadFile(files, SolutionPath(folder, lang.name, SolutionKinds[1], lang.ext)))
  }

  /** The `code` dictionary after the loop has visited items in order, or
      None when it met an unhashable item. A name the configuration does not
      know, and any number, boolean or null, is skipped. */
  function CollectCode(folder: string, items: seq<Json>, config: seq<LangConfig>,
                       files: map<string, string>): Option<Dict<SolutionSet>>
  {
    if items == [] then Some([])
    else
      var before := CollectCode(folder, items[..|items| - 1], config, files);
      var item := items[|items| - 1];
      if before.None? || Unhashable(item) then None
      else if item.JStr? && LookupLang(config, item.s).Some? then
        Some(Put(before.value, item.s, SolutionTexts(folder, LookupLang(config, item.s).value, files)))
      else before
  }

  /** The configured language names among the items, first occurrences only,
      in the order the items name them. */
  function KnownLanguages(items: seq<Json>, config: seq<LangConfig>): seq<string>
  {
    if items == [] then []
    else
      var before := KnownLanguages(items[..|items| - 1], config);
      var item := items[|items| - 1];
      if item.JStr? && LookupLang(config, item.s).Some? && item.s !in before then before + [item.s]
      else before
  }

  /** A name is among the known languages exactly when some item names it
      and the configuration has it. */
  lemma {:induction false} KnownLanguagesMembers(items: seq<Json>, config: seq<LangConfig>, name: string)
    ensures name in KnownLanguages(items, config) <==>
      LookupLang(config, name).Some? && exists i :: 0 <= i < |items| && items[i] == JStr(name)
  {
    if items != [] {
      var n := |items| - 1;
      KnownLanguagesMembers(items[..n], config, name);
      if exists i :: 0 <= i < |items| && items[i] == JStr(name) {
        var i :| 0 <= i < |items| && items[i] == JStr(name);
        if i < n {
          assert items[..n][i] == JStr(name);
        }
      }
      if exists i :: 0 <= i < n && items[..n][i] == JStr(name) {
        var i :| 0 <= i < n && items[..n][i] == JStr(name);
        assert items[i] == JStr(name);
      }
    }
  }

  /** No name is listed twice. */
  predicate NoDuplicates(names: seq<string>) {
    forall i, j :: 0 <= i < j < |names| ==> names[i] != names[j]
  }

  /** The known languages are listed once each. */
  lemma {:induction false} KnownLanguagesDistinct(items: seq<Json>, config: seq<LangConfig>)
    ensures NoDuplicates(KnownLanguages(items, config))
  {
    if items != [] {
      var before := KnownLanguages(items[..|items| - 1], config);
      var ks := KnownLanguages(items, config);
      var item := items[|items| - 1];
      KnownLanguagesDistinct(items[..|items| - 1], config);
      if item.JStr? && LookupLang(config, item.s).Some? && item.s !in before {
        assert ks == before + [item.s];
        forall i, j | 0 <= i < j < |ks| ensures ks[i] != ks[j] {
          assert ks[i] == before[i] && before[i] in before;
          if j < |before| {
            assert ks[j] == before[j];
            assert before[i] != before[j];
          } else {
            assert ks[j] == item.s;
            assert ks[i] != item.s;
          }
        }
      }
    }
  }

  /** Once an unhashable item has been met, the loop never recovers. */
  lemma {:induction false} CollectCodeStaysFailed(folder: string, items: seq<Json>, config: seq<LangConfig>,
                                                  files: map<string, string>, n: nat)
    requires n <= |items| && CollectCode(folder, items[..n], config, files).None?
    ensures CollectCode(folder, items, config, files).None?
    decreases |items| - n
  {
    if n < |items| {
      assert items[..n + 1][..n] == items[..n];
      CollectCodeStaysFailed(folder, items, config, files, n + 1);
    } else {
      assert items[..n] == items;
    }
  }

  /** The loop fails exactly when some item is a list or an object. */
  lemma {:induction false} CollectCodeFails(folder: string, items: seq<Json>, config: seq<LangConfig>,
                                            files: map<string, string>)
    ensures CollectCode(folder, items, config, files).None? <==>
      exists i :: 0 <= i < |items| && Unhashable(items[i])
  {
    if items != [] {
      var n := |items| - 1;
      CollectCodeFails(folder, items[..n], config, files);
      var before := CollectCode(folder, items[..n], config, files);
      if before.None? {
        var i :| 0 <= i < n && Unhashable(items[..n][i]);
        assert items[i] == items[..n][i];
      } else if Unhashable(items[n]) {
        assert Unhashable(items[n]);
      } else {
        forall i | 0 <= i < |items| ensures !Unhashable(items[i]) {
          if i < n {
            assert items[..n][i] == items[i];
          }
        }
      }
    }
  }

  /** When it succeeds, `code` has one entry per known language, in the order
      the languages are first named, and each holds that language's two
      solution texts. */
  lemma {:induction false} CollectCodeContents(folder: string, items: seq<Json>, config: seq<LangConfig>,
                                               files: map<string, string>)
    requires CollectCode(folder, items, config, files).Some?
    ensures var code := CollectCode(folder, items, config, files).value;
      && Keys(code) == KnownLanguages(items, config)
      && forall name :: Get(code, name).Some? ==>
           LookupLang(config, name).Some? &&
           Get(code, name).value == SolutionTexts(folder, LookupLang(config, name).value, files)
  {
    if items != [] {
      var n := |items| - 1;
      CollectCodeContents(folder, items[..n], config, files);
      var before := CollectCode(folder, items[..n], config, files).value;
      forall name | Get(before, name).Some? ensures name in Keys(before) {
        GetSomeIffKey(before, name);
      }
      var item := items[n];
      if item.JStr? && LookupLang(config, item.s).Some? {
        GetSomeIffKey(before, item.s);
        PutKeys(before, item.s, SolutionTexts(folder, LookupLang(config, item.s).value, files));
      }
    }
  }

  /** The aggregation loop of update_problem: `code` starts empty and each
      configured language gets its two solution texts. None stands for the
      TypeError an unhashable language raises. */
  method AggregateCode(folder: string, items: seq<Json>, config: seq<LangConfig>,
                       files: map<string, string>) returns (code: Option<Dict<SolutionSet>>)
    ensures code == CollectCode(folder, items, config, files)
  {
    var acc: Dict<SolutionSet> := [];
    for i := 0 to |items|
      invariant CollectCode(folder, items[..i], config, files) == Some(acc)
    {
      assert items[..i + 1][..i] == items[..i];
      var item := items[i];
      if item.JList? || item.JObject? {
        CollectCodeStaysFailed(folder, items, config, files, i + 1);
        return None;
      }
      if item.JStr? {
        var details := LookupLang(config, item.s);
        if details.Some? {
          var user := ReadFile(files, SolutionPath(folder, item.s, "user_solution", details.value.ext));
          var reference := ReadFile(files, SolutionPath(folder, item.s, "leetcode_solution", details.value.ext));
          acc := Put(acc, item.s, SolutionSet(user, reference));
        }
      }
    }
    assert items[..|items|] == items;
    code := Some(acc);
  }

  // ---------------------------------------------------------------------
  // The aggregated record injected into the page
  // ---------------------------------------------------------------------

  const StatementPlaceholder: string := "Problem statement from README.md would go here."
  const ApproachPlaceholder: string := "Detailed approach from README.md would go here."
  const NotesPlaceholder: string := "Implementation notes from README.md would go here."

  /** The fields final_data sets on top of the metadata, in the order it sets them. */
  const InjectedFields: seq<string> :=
    ["statement", "approach", "timeComplexity", "spaceComplexity", "notes", "examples", "code"]

  /** {"user_solution": ..., "leetcode_solution": ...} */
  function SolutionJson(texts: SolutionSet): Json
  {
    JObject([(SolutionKinds[0], JStr(texts.userSolution)), (SolutionKinds[1], JStr(texts.leetcodeSolution))])
  }

  /** final_data["code"]: each language's solution texts as a JSON object. */
  function CodeJson(code: Dict<SolutionSet>): (j: Json)
    ensures j.JObject? && |j.fields| == |code|
  {
    JObject(seq(|code|, i requires 0 <= i < |code| => (code[i].0, SolutionJson(code[i].1))))
  }

  /** Looking a language up in the code object finds exactly its solution texts. */
  lemma {:induction false} CodeJsonLookup(code: Dict<SolutionSet>, lang: string)
    ensures Get(CodeJson(code).fields, lang) ==
      if Get(code, lang).Some? then Some(SolutionJson(Get(code, lang).value)) else None
  {
    if code != [] {
      CodeJsonLookup(code[1..], lang);
      assert CodeJson(code).fields[1..] == CodeJson(code[1..]).fields;
    }
  }

  /** The assignments final_data receives after the copy. */
  function InjectedEntries(code: Dict<SolutionSet>): (entries: Dict<Json>)
    ensures Keys(entries) == InjectedFields
  {
    [ (InjectedFields[0], JStr(StatementPlaceholder)),
      (InjectedFields[1], JStr(ApproachPlaceholder)),
      (InjectedFields[2], JStr("O(n)")),
      (InjectedFields[3], JStr("O(n)")),
      (InjectedFields[4], JStr(NotesPlaceholder)),
      (InjectedFields[5], JList([])),
      (InjectedFields[6], CodeJson(code)) ]
  }

  /** final_data: a copy of the updated metadata with the placeholder texts,
      an empty examples list and the code object set on it. */
  function FinalData(meta: Dict<Json>, code: Dict<SolutionSet>): Dict<Json>
  {
    PutAll(meta, InjectedEntries(code))
  }

  /** Every metadata key keeps its place at the front of final_data, and every
      metadata entry other than the injected fields is carried over as is. */
  lemma FinalDataKeepsMetadata(meta: Dict<Json>, code: Dict<SolutionSet>, k: string)
    requires k !in InjectedFields
    ensures Keys(meta) <= Keys(FinalData(meta, code))
    ensures Get(FinalData(meta, code), k) == Get(meta, k)
  {
    var entries := InjectedEntries(code);
    PutAllKeepsKeyOrder(meta, entries);
    forall i | 0 <= i < |entries| ensures entries[i].0 != k {
      assert Keys(entries)[i] == entries[i].0;
    }
    PutAllOther(meta, entries, k);
  }

  /** The code object and the empty examples list are what the page gets. */
  lemma FinalDataCode(meta: Dict<Json>, code: Dict<SolutionSet>)
    ensures Get(FinalData(meta, code), "code") == Some(CodeJson(code))
    ensures Get(FinalData(meta, code), "examples") == Some(JList([]))
  {
    var entries := InjectedEntries(code);
    PutAllLastWins(meta, entries, 6);
    assert entries[6].0 == "code";
    assert entries[6].0 != entries[5].0;
    PutAllLastWins(meta, entries, 5);
  }

  /** The placeholder the page template holds, backticks included. */
  const Placeholder: string := "`__PROBLEM_DATA__`"

  /** template_content.replace("`__PROBLEM_DATA__`", f"`{injected_json}`") */
  function Inject(template: string, json: string): string
  {
    ReplaceAll(template, Placeholder, "`" + json + "`")
  }

  /** Every placeholder becomes the backtick-quoted JSON and the text between
      placeholders is kept. */
  lemma InjectSplitsAtPlaceholders(template: string, json: string)
    ensures Inject(template, json) == Join(Split(template, Placeholder), "`" + json + "`")
    ensures forall k :: 0 <= k < |Split(template, Placeholder)| ==>
      !Contains(Split(template, Placeholder)[k], Placeholder)
  {
    ReplaceAllIsSplitJoin(template, Placeholder, "`" + json + "`");
    SplitPiecesAreFree(template, Placeholder);
  }

  /** A template without the placeholder is written back unchanged. */
  lemma InjectWithoutPlaceholder(template: string, json: string)
    requires !Contains(template, Placeholder)
    ensures Inject(template, json) == template
  {
    ReplaceAllOfFree(template, Placeholder, "`" + json + "`");
  }

  /** A template with exactly one placeholder gets the JSON between backticks
      in its place and is otherwise unchanged. */
  lemma InjectOnce(before: string, after: string, json: string)
    requires forall i :: 0 <= i < |before| ==> !OccursAt(before + Placeholder + after, Placeholder, i)
    requires !Contains(after, Placeholder)
    ensures Inject(before + Placeholder + after, json) == before + "`" + json + "`" + after
  {
    ReplaceAllAtFirst(before, after, Placeholder, "`" + json + "`");
    ReplaceAllOfFree(after, Placeholder, "`" + json + "`");
  }

  // ---------------------------------------------------------------------
  // The command line
  // ---------------------------------------------------------------------

  datatype CliError = Usage | InvalidArgument(arg: string)

  /** The key of a key=value argument: everything before the first '='. */
  function ArgKey(arg: string): string
    requires '=' in arg
  {
    SplitFirst(arg, '=').value.0
  }

  /** The value of a key=value argument: everything after the first '='. */
  function ArgValue(arg: string): string
    requires '=' in arg
  {
    SplitFirst(arg, '=').value.1
  }

  /** The position of the first argument without an '=', if any. */
  function FirstInvalid(args: seq<string>): (r: Option<nat>)
    ensures r.None? <==> forall j :: 0 <= j < |args| ==> '=' in args[j]
    ensures r.Some? ==> r.value < |args| && '=' !in args[r.value]
    ensures r.Some? ==> forall j :: 0 <= j < r.value ==> '=' in args[j]
  {
    if args == [] then None
    else if '=' !in args[0] then Some(0)
    else
      var rest := FirstInvalid(args[1..]);
      if rest.None? then None else Some(rest.value + 1)
  }

  /** The assignments `updates_dict[key] = parse_value(value)` the loop
      makes, one per well-formed argument, in order. */
  function ArgEntries(args: seq<string>): (entries: Dict<Json>)
    requires forall j :: 0 <= j < |args| ==> '=' in args[j]
    ensures |entries| == |args|
    ensures forall j :: 0 <= j < |args| ==>
      entries[j] == (ArgKey(args[j]), ParseValue(ArgValue(args[j])))
  {
    seq(|args|, j requires 0 <= j < |args| => (ArgKey(args[j]), ParseValue(ArgValue(args[j]))))
  }

  /** The first argument without '=' is the one FirstInvalid finds. */
  lemma FirstInvalidAt(args: seq<string>, i: nat)
    requires i < |args| && '=' !in args[i]
    requires forall j :: 0 <= j < i ==> '=' in args[j]
    ensures FirstInvalid(args) == Some(i)
  {
  }

  /** updates_dict after the loop over well-formed key=value arguments. */
  function ParsedUpdates(args: seq<string>): Dict<Json>
    requires forall j :: 0 <= j < |args| ==> '=' in args[j]
  {
    PutAll([], ArgEntries(args))
  }

  /** What the __main__ loop makes of the key=value arguments: updates_dict,
      or the first argument without an '='. */
  function UpdatesFromArgs(args: seq<string>): Result<Dict<Json>, CliError>
  {
    match FirstInvalid(args)
    case Some(i) => Failure(InvalidArgument(args[i]))
    case None => Success(ParsedUpdates(args))
  }

  /** Each key ends up with the parsed value of the last argument that has it. */
  lemma ParsedUpdatesLastWins(args: seq<string>, i: nat)
    requires forall j :: 0 <= j < |args| ==> '=' in args[j]
    requires i < |args|
    requires forall j :: i < j < |args| ==> ArgKey(args[j]) != ArgKey(args[i])
    ensures Get(ParsedUpdates(args), ArgKey(args[i])) == Some(ParseValue(ArgValue(args[i])))
  {
    var entries := ArgEntries(args);
    forall j | i < j < |entries| ensures entries[j].0 != entries[i].0 {
      assert entries[j].0 == ArgKey(args[j]);
    }
    PutAllLastWins([], entries, i);
  }

  /** The keys of the arguments, in order. */
  function ArgKeys(args: seq<string>): (keys: seq<string>)
    requires forall j :: 0 <= j < |args| ==> '=' in args[j]
    ensures |keys| == |args|
    ensures forall j :: 0 <= j < |args| ==> keys[j] == ArgKey(args[j])
  {
    seq(|args|, j requires 0 <= j < |args| => ArgKey(args[j]))
  }

  /** No key of updates_dict is repeated, and a key has an entry exactly when
      some argument has that key. */
  lemma ParsedUpdatesKeys(args: seq<string>, k: string)
    requires forall j :: 0 <= j < |args| ==> '=' in args[j]
    ensures DistinctKeys(ParsedUpdates(args))
    ensures Get(ParsedUpdates(args), k).Some? <==> k in ArgKeys(args)
  {
    var entries := ArgEntries(args);
    PutAllKeepsDistinct([], entries);
    PutAllKeys([], entries, k);
    assert Keys(entries) == ArgKeys(args);
  }

  /** One more well-formed argument: its key is set to its parsed value. */
  lemma ParsedUpdatesStep(args: seq<string>, i: nat)
    requires i < |args| && forall j :: 0 <= j <= i ==> '=' in args[j]
    ensures ParsedUpdates(args[..i + 1]) ==
      Put(ParsedUpdates(args[..i]), ArgKey(args[i]), ParseValue(ArgValue(args[i])))
  {
    var entry := (ArgKey(args[i]), ParseValue(ArgValue(args[i])));
    assert ArgEntries(args[..i + 1]) == ArgEntries(args[..i]) + [entry];
    PutAllSnoc([], ArgEntries(args[..i]), entry.0, entry.1);
  }

  /** The __main__ block: argv holds the script name, the problem number and
      the key=value arguments. Fewer than two arguments is a usage error; an
      argument without '=' stops parsing with an error. */
  method ParseCommandLine(argv: seq<string>) returns (r: Result<(string, Dict<Json>), CliError>)
    ensures |argv| < 3 ==> r == Failure(Usage)
    ensures |argv| >= 3 ==>
      r == match UpdatesFromArgs(argv[2..])
           case Success(updates) => Success((argv[1], updates))
           case Failure(e) => Failure(e)
  {
    if |argv| < 3 {
      return Failure(Usage);
    }
    var args := argv[2..];
    var updates: Dict<Json> := [];
    for i := 0 to |args|
      invariant forall j :: 0 <= j < i ==> '=' in args[j]
      invariant updates == ParsedUpdates(args[..i])
    {
      var arg := args[i];
      if '=' !in arg {
        FirstInvalidAt(args, i);
        return Failure(InvalidArgument(arg));
      }
      ParsedUpdatesStep(args, i);
      updates := Put(updates, ArgKey(arg), ParseValue(ArgValue(arg)));
    }
    assert args[..|args|] == args;
    r := Success((argv[1], updates));
  }

  // ---------------------------------------------------------------------
  // find_problem_folder
  // ---------------------------------------------------------------------

  const ProblemsDir: string := "problems"

  /** The position of the first name that starts with prefix. */
  function FirstWithPrefix(names: seq<string>, prefix: string): (r: Option<nat>)
    ensures r.None? <==> forall j :: 0 <= j < |names| ==> !StartsWith(names[j], prefix)
    ensures r.Some? ==> r.value < |names| && StartsWith(names[r.value], prefix)
    ensures r.Some? ==> forall j :: 0 <= j < r.value ==> !StartsWith(names[j], prefix)
  {
    if names == [] then None
    else if StartsWith(names[0], prefix) then Some(0)
    else
      var rest := FirstWithPrefix(names[1..], prefix);
      if rest.None? then None else Some(rest.value + 1)
  }

  /** The loop of find_problem_folder over the directory listing. */
  method FindByPrefix(names: seq<string>, prefix: string) returns (r: Option<nat>)
    ensures r == FirstWithPrefix(names, prefix)
  {
    for i := 0 to |names|
      invariant forall j :: 0 <= j < i ==> !StartsWith(names[j], prefix)
    {
      if |prefix| <= |names[i]| && names[i][..|prefix|] == prefix {
        return Some(i);
      }
    }
    return None;
  }

  /** The prefix find_problem_folder looks for, as written: f"{n:04d}". */
  function PaddedNumber(number: int): string
  {
    PyFormat04(number)
  }

  /** The prefix that names exactly one problem: the padded number and the
      "_" that ends it in every folder name. */
  function FolderKey(number: int): string
  {
    PyFormat04(number) + "_"
  }

  /** find_problem_folder as written: the first listed folder whose name
      starts with the padded number. */
  function FindProblemFolderAsWritten(listing: seq<string>, number: int): Option<string>
  {
    match FirstWithPrefix(listing, PaddedNumber(number))
    case Some(i) => Some(ProblemsDir + "/" + listing[i])
    case None => None
  }

  /** find_problem_folder with the intended prefix, the padded number and its
      "_". UpdateProblem follows the source and uses the lookup as written;
      LookupsAgreeBelow10000 says when the two give the same folder. */
  function FindProblemFolder(listing: seq<string>, number: int): Option<string>
  {
    match FirstWithPrefix(listing, FolderKey(number))
    case Some(i) => Some(ProblemsDir + "/" + listing[i])
    case None => None
  }

  /** The folder names of problems 10000 and 1000. */
  lemma FolderNamesOf1000And10000()
    ensures CreateProblem.FolderName(10000, "a") == "10000_a"
    ensures CreateProblem.FolderName(1000, "b") == "1000_b"
    ensures PaddedNumber(1000) == "1000" && FolderKey(1000) == "1000_"
  {
    assert Digits(1000) == "1000";
    assert Digits(10000) == "10000";
  }

  /** In the listing ["10000_a", "1000_b"], "1000" first matches entry 0
      and "1000_" first matches entry 1. */
  lemma CollidingListing()
    ensures FirstWithPrefix(["10000_a", "1000_b"], "1000") == Some(0)
    ensures FirstWithPrefix(["10000_a", "1000_b"], "1000_") == Some(1)
  {
    var listing := ["10000_a", "1000_b"];
    assert listing[0][..4] == "1000";
    assert listing[0][4] == '0';
    assert listing[1][..5] == "1000_";
  }

  /** As written, problem 1000 can resolve to the folder of problem 10000:
      "1000" is a prefix of "10000_a". The corrected prefix finds 1000_b. */
  lemma PaddedNumberCollides()
    ensures var listing := [CreateProblem.FolderName(10000, "a"), CreateProblem.FolderName(1000, "b")];
      && FindProblemFolderAsWritten(listing, 1000) == Some("problems/10000_a")
      && FindProblemFolder(listing, 1000) == Some("problems/1000_b")
  {
    FolderNamesOf1000And10000();
    CollidingListing();
    var listing := ["10000_a", "1000_b"];
    assert [CreateProblem.FolderName(10000, "a"), CreateProblem.FolderName(1000, "b")] == listing;
    assert ProblemsDir + "/" + listing[0] == "problems/10000_a";
    assert ProblemsDir + "/" + listing[1] == "problems/1000_b";
  }

  function Pow10(k: nat): nat
  {
    if k == 0 then 1 else 10 * Pow10(k - 1)
  }

  /** A number below 10^k has at most k digits. */
  lemma {:induction false} DigitsBound(n: nat, k: nat)
    requires 1 <= k && n < Pow10(k)
    ensures |Digits(n)| <= k
  {
    if n >= 10 {
      DigitsBound(n / 10, k - 1);
    }
  }

  /** For problem numbers below 10000, as every folder name has exactly four
      digits, the prefix as written already names exactly one problem. */
  lemma PaddedNumberExactBelow10000(n: nat, m: nat, slug: string)
    requires n < 10000 && m < 10000
    ensures StartsWith(CreateProblem.FolderName(m, slug), PaddedNumber(n)) <==> n == m
  {
    DigitsBound(n, 4);
    DigitsBound(m, 4);
    PyFormat04Denotes(n);
    PyFormat04Denotes(m);
    var f := CreateProblem.FolderName(m, slug);
    assert f[..4] == PyFormat04(m);
    if StartsWith(f, PaddedNumber(n)) {
      PyFormat04Injective(n, m);
    }
  }

  /** With the corrected prefix, a folder name matches exactly the problem
      whose number it carries, for every number. */
  lemma FolderKeyExact(n: int, m: int, slug: string)
    ensures StartsWith(CreateProblem.FolderName(m, slug), FolderKey(n)) <==> n == m
  {
    var f := CreateProblem.FolderName(m, slug);
    assert f == PyFormat04(m) + "_" + slug;
    if StartsWith(f, FolderKey(n)) {
      NoUnderscoreInFormat04(n);
      NoUnderscoreInFormat04(m);
      PrefixUpToSeparator(PyFormat04(n), PyFormat04(m), slug, '_');
      PyFormat04Injective(n, m);
    }
  }

  /** The names of problem folders, one per (number, slug). */
  function FolderNames(folders: seq<(int, string)>): (names: seq<string>)
    ensures |names| == |folders|
    ensures forall j :: 0 <= j < |folders| ==> names[j] == CreateProblem.FolderName(folders[j].0, folders[j].1)
  {
    seq(|folders|, j requires 0 <= j < |folders| => CreateProblem.FolderName(folders[j].0, folders[j].1))
  }

  /** In a problems/ directory of scaffolded folders, the corrected lookup finds
      the first folder of the requested number, and nothing when there is none. */
  lemma FindProblemFolderFinds(folders: seq<(int, string)>, number: int)
    ensures var names := FolderNames(folders);
      var r := FirstWithPrefix(names, FolderKey(number));
      && (r.None? <==> forall j :: 0 <= j < |folders| ==> folders[j].0 != number)
      && (r.Some? ==> folders[r.value].0 == number &&
                      forall j :: 0 <= j < r.value ==> folders[j].0 != number)
  {
    var names := FolderNames(folders);
    forall j | 0 <= j < |folders|
      ensures StartsWith(names[j], FolderKey(number)) <==> folders[j].0 == number
    {
      FolderKeyExact(number, folders[j].0, folders[j].1);
    }
  }

  /** Two prefixes that every listed name starts with alike pick the same
      name. */
  lemma {:induction false} FirstWithPrefixAlike(names: seq<string>, p: string, q: string)
    requires forall j :: 0 <= j < |names| ==> (StartsWith(names[j], p) <==> StartsWith(names[j], q))
    ensures FirstWithPrefix(names, p) == FirstWithPrefix(names, q)
  {
    if names != [] {
      assert forall j :: 0 <= j < |names| - 1 ==> names[1..][j] == names[j + 1];
      FirstWithPrefixAlike(names[1..], p, q);
    }
  }

  /** When every listed problem and the requested one are numbered below
      10000, the lookup as written finds the same folder as the intended one;
      the two part only from problem 10000 on. */
  lemma LookupsAgreeBelow10000(folders: seq<(int, string)>, number: int)
    requires 0 <= number < 10000
    requires forall j :: 0 <= j < |folders| ==> 0 <= folders[j].0 < 10000
    ensures FindProblemFolderAsWritten(FolderNames(folders), number) == FindProblemFolder(FolderNames(folders), number)
  {
    var names := FolderNames(folders);
    forall j | 0 <= j < |names|
      ensures StartsWith(names[j], PaddedNumber(number)) <==> StartsWith(names[j], FolderKey(number))
    {
      PaddedNumberExactBelow10000(number, folders[j].0, folders[j].1);
      FolderKeyExact(number, folders[j].0, folders[j].1);
    }
    FirstWithPrefixAlike(names, PaddedNumber(number), FolderKey(number));
  }

  // ---------------------------------------------------------------------
  // update_problem
  // ---------------------------------------------------------------------

  /** Why update_problem stops without writing anything: the three errors it
      reports, the exceptions the metadata can raise, and the failure to open
      the page for writing when the problem folder has no ui/ directory. */
  datatype UpdateError =
    | ProblemNotFound
    | MetaNotFound
    | LanguagesNotIterable
    | LanguageUnhashable
    | TemplateFieldInvalid
    | TemplateNotFound
    | UiFolderMissing

  /** What update_problem reads and writes: the entries of problems/, the
      directories that exist, each meta.json by path (already parsed), and
      every other text file by path. */
  datatype Workspace = Workspace(listing: seq<string>, dirs: set<string>,
                                 metas: map<string, Dict<Json>>, files: map<string, string>)

  function MetaPath(folder: string): string { folder + "/meta.json" }

  function UiDir(folder: string): string { folder + "/ui" }

  function UiPath(folder: string): string { UiDir(folder) + "/ProblemViewTemplate.tsx" }

  function TemplatePath(name: string): string { "templates/" + name + "/ProblemViewTemplate.tsx" }

  /** meta_data["template"] when it is a string; a missing key or another
      kind of value makes the tool fail. */
  function TemplateName(meta: Dict<Json>): (name: Option<string>)
    ensures name.Some? <==> Get(meta, "template").Some? && Get(meta, "template").value.JStr?
  {
    var t: Option<Json> := Get(meta, "template");
    if t.Some? && t.value.JStr? then Some(t.value.s) else None
  }

  /** update_problem: find the folder (by the padded number, as written),
      apply the updates, collect the code, inject the record into the page
      template and write the page, then meta.json. json.dumps is the dumps
      parameter. Every error is raised before the first write. */
  method UpdateProblem(number: int, updates: Dict<Json>, config: seq<LangConfig>, ws: Workspace,
                       dumps: Dict<Json> -> string) returns (r: Result<Workspace, UpdateError>)
    ensures match FindProblemFolderAsWritten(ws.listing, number)
      case None => r == Failure(ProblemNotFound)
      case Some(folder) =>
        if MetaPath(folder) !in ws.metas then r == Failure(MetaNotFound)
        else
          var meta := ApplyAll(ws.metas[MetaPath(folder)], updates);
          match LanguageItems(meta)
          case None => r == Failure(LanguagesNotIterable)
          case Some(items) =>
            match CollectCode(folder, items, config, ws.files)
            case None => r == Failure(LanguageUnhashable)
            case Some(code) =>
              match TemplateName(meta)
              case None => r == Failure(TemplateFieldInvalid)
              case Some(name) =>
                if TemplatePath(name) !in ws.files then r == Failure(TemplateNotFound)
                else if UiDir(folder) !in ws.dirs then r == Failure(UiFolderMissing)
                else r == Success(Workspace(
                  ws.listing,
                  ws.dirs,
                  ws.metas[MetaPath(folder) := meta],
                  ws.files[UiPath(folder) := Inject(ws.files[TemplatePath(name)], dumps(FinalData(meta, code)))]))
  {
    var found := FindByPrefix(ws.listing, PaddedNumber(number));
    if found.None? {
      return Failure(ProblemNotFound);
    }
    var folder := ProblemsDir + "/" + ws.listing[found.value];
    var metaPath := MetaPath(folder);
    if metaPath !in ws.metas {
      return Failure(MetaNotFound);
    }
    var meta := ApplyUpdates(ws.metas[metaPath], updates);
    var items := LanguageItems(meta);
    if items.None? {
      return Failure(LanguagesNotIterable);
    }
    var code := AggregateCode(folder, items.value, config, ws.files);
    if code.None? {
      return Failure(LanguageUnhashable);
    }
    var finalData := FinalData(meta, code.value);
    var name := TemplateName(meta);
    if name.None? {
      return Failure(TemplateFieldInvalid);
    }
    var templatePath := TemplatePath(name.value);
    if templatePath !in ws.files {
      return Failure(TemplateNotFound);
    }
    var page := Inject(ws.files[templatePath], dumps(finalData));
    if UiDir(folder) !in ws.dirs {
      return Failure(UiFolderMissing);
    }
    var files := ws.files[UiPath(folder) := page];
    var metas := ws.metas[metaPath := meta];
    r := Success(Workspace(ws.listing, ws.dirs, metas, files));
  }
}
