/**
  tools/create_problem.py: the slug, the zero-padded folder name, the
  default meta.json record, and the scaffolding of README.md and the two
  solution files per configured language, each written only if absent.
  The file system is a map from path to contents.
*/
module CreateProblem {
  import opened Wrappers
  import opened Strings
  import opened Numbers
  import opened OrderedDict
  import opened Records

  /** title.lower().replace(" ", "-"): no spaces and no upper-case letters. */
  function LowerDashed(title: string): (t: string)
    ensures forall j :: 0 <= j < |t| ==> t[j] != ' ' && !IsUpper(t[j])
  {
    ReplaceChar(Lower(title), ' ', '-')
  }

  lemma StripKeepsSlugChars(t: string, i: int)
    requires forall j :: 0 <= j < |t| ==> t[j] != ' ' && !IsUpper(t[j])
    requires 0 <= i < |Strip(t)|
    ensures Strip(t)[i] != ' ' && !IsUpper(Strip(t)[i])
  {
    StripIndex(t, i);
  }

  /** normalize_title: lower-case, every space to '-', then strip. */
  function NormalizeTitle(title: string): (slug: string)
    ensures forall i :: 0 <= i < |slug| ==> slug[i] != ' ' && !IsUpper(slug[i])
    ensures ' ' !in slug
    ensures Stripped(slug)
  {
    var t := LowerDashed(title);
    var slug := Strip(t);
    forall i | 0 <= i < |slug|
      ensures slug[i] != ' ' && !IsUpper(slug[i])
    {
      StripKeepsSlugChars(t, i);
    }
    slug
  }

  /** A slug is already normalized. */
  lemma NormalizeTitleIdempotent(title: string)
    ensures NormalizeTitle(NormalizeTitle(title)) == NormalizeTitle(title)
  {
    var s := NormalizeTitle(title);
    assert Lower(s) == s;
    assert LowerDashed(s) == s;
    StripOfStripped(s);
  }

  /** f"{int(problem_number):04d}_{safe_title}" */
  function FolderName(number: int, slug: string): string
  {
    PyFormat04(number) + "_" + slug
  }

  /** The folder name is the number, zero-padded to at least four digits and
      never truncated, then '_', then the slug. */
  lemma FolderNameLayout(number: nat, slug: string)
    ensures var f := FolderName(number, slug);
      var w := if |Digits(number)| < 4 then 4 else |Digits(number)|;
      && |f| == w + 1 + |slug|
      && AllDigits(f[..w]) && DecimalValue(f[..w]) == number
      && f[w] == '_' && f[w + 1..] == slug
  {
    PyFormat04Denotes(number);
    var f := FolderName(number, slug);
    assert f[..|PyFormat04(number)|] == PyFormat04(number);
  }

  /** os.path.join("problems", folder_name) */
  function ProblemFolder(number: int, title: string): string
  {
    "problems/" + FolderName(number, NormalizeTitle(title))
  }

  /** The README.md written for a new problem; the header uses the number as
      it was typed. */
  function ReadmeText(numberText: string, title: string): string
  {
    "# " + numberText + ". " + title + "\n\n"
    + "## Problem Description\n\n(Add the problem statement here.)\n\n"
    + "## Approach\n\n(Describe your thought process.)\n\n"
    + "## Complexity\n\n- **Time:** O(...)\n- **Space:** O(...)\n"
  }

  /** The "languages" list of a new problem: the config keys in config order. */
  function ConfigLanguages(config: seq<LangConfig>): (langs: seq<Json>)
    ensures |langs| == |config|
    ensures forall k :: 0 <= k < |config| ==> langs[k] == JStr(config[k].name)
  {
    seq(|config|, k requires 0 <= k < |config| => JStr(config[k].name))
  }

  /** The links object of a new problem: all three links empty. */
  const EmptyLinks: Json := JObject([("leetcode", JStr("")), ("github", JStr("")), ("discussion", JStr(""))])

  /** The metadata literal of create_problem_folder, in the key order it is
      written, for given field values. */
  function MetadataRecord(number: int, title: string, slug: string, template: string,
                          languages: seq<Json>, createdAt: string): (meta: Dict<Json>)
    ensures Keys(meta) == ["problem_number", "title", "slug", "template", "languages", "created_at",
                           "solved", "notes_complete", "tags", "difficulty", "links"]
  {
    [ ("problem_number", JInt(number)),
      ("title", JStr(title)),
      ("slug", JStr(slug)),
      ("template", JStr(template)),
      ("languages", JList(languages)),
      ("created_at", JStr(createdAt)),
      ("solved", JBool(false)),
      ("notes_complete", JBool(false)),
      ("tags", JList([])),
      ("difficulty", JStr("Easy")),
      ("links", EmptyLinks) ]
  }

  /** The identifying fields of the record hold the values given for them. */
  lemma MetadataRecordIdentity(number: int, title: string, slug: string, template: string,
                               languages: seq<Json>, createdAt: string)
    ensures var meta := MetadataRecord(number, title, slug, template, languages, createdAt);
      && Get(meta, "problem_number") == Some(JInt(number))
      && Get(meta, "title") == Some(JStr(title))
      && Get(meta, "slug") == Some(JStr(slug))
      && Get(meta, "template") == Some(JStr(template))
  {
    var meta := MetadataRecord(number, title, slug, template, languages, createdAt);
    GetSkipsPrefix(meta, 1, "title");
    GetSkipsPrefix(meta, 2, "slug");
    GetSkipsPrefix(meta, 3, "template");
  }

  lemma MetadataRecordLanguages(number: int, title: string, slug: string, template: string,
                               languages: seq<Json>, createdAt: string)
    ensures var meta := MetadataRecord(number, title, slug, template, languages, createdAt);
      && Get(meta, "languages") == Some(JList(languages))
      && Get(meta, "created_at") == Some(JStr(createdAt))
  {
    var meta := MetadataRecord(number, title, slug, template, languages, createdAt);
    GetSkipsPrefix(meta, 4, "languages");
    GetSkipsPrefix(meta, 5, "created_at");
  }

  /** A new problem starts unsolved, without notes and without tags. */
  lemma MetadataRecordProgress(number: int, title: string, slug: string, template: string,
                               languages: seq<Json>, createdAt: string)
    ensures var meta := MetadataRecord(number, title, slug, template, languages, createdAt);
      && Get(meta, "solved") == Some(JBool(false))
      && Get(meta, "notes_complete") == Some(JBool(false))
      && Get(meta, "tags") == Some(JList([]))
  {
    var meta := MetadataRecord(number, title, slug, template, languages, createdAt);
    GetSkipsPrefix(meta, 6, "solved");
    GetSkipsPrefix(meta, 7, "notes_complete");
    GetSkipsPrefix(meta, 8, "tags");
  }

  /** A new problem is "Easy" until told otherwise, and has all three links empty. */
  lemma MetadataRecordDetails(number: int, title: string, slug: string, template: string,
                               languages: seq<Json>, createdAt: string)
    ensures var meta := MetadataRecord(number, title, slug, template, languages, createdAt);
      && Get(meta, "difficulty") == Some(JStr("Easy"))
      && Get(meta, "links") == Some(EmptyLinks)
  {
    var meta := MetadataRecord(number, title, slug, template, languages, createdAt);
    GetSkipsPrefix(meta, 9, "difficulty");
    GetSkipsPrefix(meta, 10, "links");
  }

  /** The metadata of a new problem: the slug is normalize_title(title) and
      the languages are the config keys in order; the rest are defaults. */
  function NewMetadata(number: int, title: string, template: string, config: seq<LangConfig>, createdAt: string): Dict<Json>
  {
    MetadataRecord(number, title, NormalizeTitle(title), template, ConfigLanguages(config), createdAt)
  }

  /** A new problem lists every configured language once, in configuration
      order, and no other: a name is listed exactly when the configuration
      has an entry for it. */
  lemma NewMetadataLanguages(number: int, title: string, template: string, config: seq<LangConfig>, createdAt: string)
    ensures var langs := ConfigLanguages(config);
      && Get(NewMetadata(number, title, template, config, createdAt), "languages") == Some(JList(langs))
      && |langs| == |config|
      && forall name :: JStr(name) in langs <==> LookupLang(config, name).Some?
  {
    var langs := ConfigLanguages(config);
    MetadataRecordLanguages(number, title, NormalizeTitle(title), template, langs, createdAt);
    forall name ensures JStr(name) in langs <==> LookupLang(config, name).Some? {
      if JStr(name) in langs {
        var k :| 0 <= k < |langs| && langs[k] == JStr(name);
        assert config[k].name == name;
      }
      if LookupLang(config, name).Some? {
        var k :| 0 <= k < |config| && config[k] == LookupLang(config, name).value;
        assert langs[k] == JStr(name);
      }
    }
  }

  /** A file create_problem_folder writes when it is absent: its path and
      the text it starts with. */
  type Target = (string, string)

  /** `if not os.path.exists(path): write content` */
  function WriteIfAbsent(files: map<string, string>, target: Target): map<string, string>
  {
    if target.0 in files then files else files[target.0 := target.1]
  }

  /** The targets written one after the other, each only if absent. */
  function WriteAllIfAbsent(files: map<string, string>, targets: seq<Target>): map<string, string>
  {
    if targets == [] then files
    else WriteIfAbsent(WriteAllIfAbsent(files, targets[..|targets| - 1]), targets[|targets| - 1])
  }

  lemma {:induction false} WriteAllIfAbsentAppend(files: map<string, string>, a: seq<Target>, b: seq<Target>)
    ensures WriteAllIfAbsent(files, a + b) == WriteAllIfAbsent(WriteAllIfAbsent(files, a), b)
    decreases |b|
  {
    if b != [] {
      var ab := a + b;
      assert ab != [] && ab[..|ab| - 1] == a + b[..|b| - 1] && ab[|ab| - 1] == b[|b| - 1];
      WriteAllIfAbsentAppend(files, a, b[..|b| - 1]);
      assert WriteAllIfAbsent(files, ab)
          == WriteIfAbsent(WriteAllIfAbsent(files, a + b[..|b| - 1]), b[|b| - 1]);
    } else {
      assert a + b == a;
    }
  }

  /** Writing only absent files keeps every file that was there. */
  lemma {:induction false} WriteAllIfAbsentKeeps(files: map<string, string>, targets: seq<Target>)
    ensures var r := WriteAllIfAbsent(files, targets);
      forall p :: p in files ==> p in r && r[p] == files[p]
  {
    if targets != [] {
      WriteAllIfAbsentKeeps(files, targets[..|targets| - 1]);
    }
  }

  /** Afterwards every target path exists. */
  lemma {:induction false} WriteAllIfAbsentCreates(files: map<string, string>, targets: seq<Target>)
    ensures var r := WriteAllIfAbsent(files, targets);
      forall i :: 0 <= i < |targets| ==> targets[i].0 in r
  {
    if targets != [] {
      var prefix := targets[..|targets| - 1];
      WriteAllIfAbsentCreates(files, prefix);
      assert forall i :: 0 <= i < |prefix| ==> prefix[i] == targets[i];
    }
  }

  /** Every file that was not there before is one of the targets, with its text. */
  lemma {:induction false} WriteAllIfAbsentAdds(files: map<string, string>, targets: seq<Target>)
    ensures var r := WriteAllIfAbsent(files, targets);
      forall p :: p in r && p !in files ==> (p, r[p]) in targets
  {
    if targets != [] {
      var prefix := targets[..|targets| - 1];
      WriteAllIfAbsentAdds(files, prefix);
      assert targets == prefix + [targets[|targets| - 1]];
    }
  }

  /** One more target written after a prefix of the targets. */
  lemma WriteAllIfAbsentStep(files: map<string, string>, targets: seq<Target>, i: nat)
    requires i < |targets|
    ensures WriteAllIfAbsent(files, targets[..i + 1])
         == WriteIfAbsent(WriteAllIfAbsent(files, targets[..i]), targets[i])
  {
    assert targets[..i + 1][..i] == targets[..i];
  }

  /** The solution files of one language, in the order the inner loop writes them. */
  function LanguageTargets(base: string, lang: LangConfig): (ts: seq<Target>)
    ensures |ts| == |SolutionKinds|
  {
    seq(|SolutionKinds|, t requires 0 <= t < |SolutionKinds| =>
      (SolutionPath(base, lang.name, SolutionKinds[t], lang.ext), lang.boilerplate))
  }

  /** The solution files of every configured language, in loop order. */
  function SolutionTargets(base: string, config: seq<LangConfig>): seq<Target>
  {
    if config == [] then []
    else SolutionTargets(base, config[..|config| - 1]) + LanguageTargets(base, config[|config| - 1])
  }

  /** p is a solution file of some configured language under base, and content
      is that language's boilerplate. */
  ghost predicate IsScaffoldedSolution(base: string, config: seq<LangConfig>, p: string, content: string)
  {
    exists k, t :: 0 <= k < |config| && 0 <= t < |SolutionKinds|
      && p == SolutionPath(base, config[k].name, SolutionKinds[t], config[k].ext)
      && content == config[k].boilerplate
  }

  /** Both solution files of every configured language are targets. */
  lemma {:induction false} SolutionTargetsComplete(base: string, config: seq<LangConfig>, k: nat, t: nat)
    requires k < |config| && t < |SolutionKinds|
    ensures (SolutionPath(base, config[k].name, SolutionKinds[t], config[k].ext), config[k].boilerplate)
      in SolutionTargets(base, config)
  {
    var init := config[..|config| - 1];
    if k < |config| - 1 {
      SolutionTargetsComplete(base, init, k, t);
      assert init[k] == config[k];
    } else {
      assert LanguageTargets(base, config[k])[t] in LanguageTargets(base, config[|config| - 1]);
    }
  }

  /** Every target is a solution file of a configured language with its boilerplate. */
  lemma {:induction false} SolutionTargetsSound(base: string, config: seq<LangConfig>, x: Target)
    requires x in SolutionTargets(base, config)
    ensures IsScaffoldedSolution(base, config, x.0, x.1)
  {
    var init := config[..|config| - 1];
    var last := |config| - 1;
    if x in SolutionTargets(base, init) {
      SolutionTargetsSound(base, init, x);
      var k, t :| 0 <= k < |init| && 0 <= t < |SolutionKinds|
        && x.0 == SolutionPath(base, init[k].name, SolutionKinds[t], init[k].ext)
        && x.1 == init[k].boilerplate;
      assert init[k] == config[k];
    } else {
      var ts := LanguageTargets(base, config[last]);
      var t :| 0 <= t < |ts| && ts[t] == x;
      assert x.0 == SolutionPath(base, config[last].name, SolutionKinds[t], config[last].ext);
    }
  }

  /** The file system after create_problem_folder's README.md and solution steps. */
  function Scaffold(files: map<string, string>, base: string, readmeText: string, config: seq<LangConfig>): map<string, string>
  {
    WriteAllIfAbsent(files, [(base + "/README.md", readmeText)] + SolutionTargets(base, config))
  }

  /** create_problem_folder never overwrites README.md or a solution file. */
  lemma ScaffoldKeeps(files: map<string, string>, base: string, readmeText: string, config: seq<LangConfig>)
    ensures var r := Scaffold(files, base, readmeText, config);
      forall p :: p in files ==> p in r && r[p] == files[p]
  {
    WriteAllIfAbsentKeeps(files, [(base + "/README.md", readmeText)] + SolutionTargets(base, config));
  }

  /** Afterwards README.md and both solution files of every configured
      language exist. */
  lemma ScaffoldCreates(files: map<string, string>, base: string, readmeText: string, config: seq<LangConfig>)
    ensures var r := Scaffold(files, base, readmeText, config);
      && base + "/README.md" in r
      && forall k, t :: 0 <= k < |config| && 0 <= t < |SolutionKinds| ==>
           SolutionPath(base, config[k].name, SolutionKinds[t], config[k].ext) in r
  {
    var targets := [(base + "/README.md", readmeText)] + SolutionTargets(base, config);
    WriteAllIfAbsentCreates(files, targets);
    assert targets[0].0 == base + "/README.md";
    forall k, t | 0 <= k < |config| && 0 <= t < |SolutionKinds|
      ensures SolutionPath(base, config[k].name, SolutionKinds[t], config[k].ext) in Scaffold(files, base, readmeText, config)
    {
      SolutionTargetsComplete(base, config, k, t);
      var x := (SolutionPath(base, config[k].name, SolutionKinds[t], config[k].ext), config[k].boilerplate);
      var i :| 0 <= i < |SolutionTargets(base, config)| && SolutionTargets(base, config)[i] == x;
      assert targets[i + 1] == x;
    }
  }

  /** Every file created is README.md with its template text or a solution
      file of a configured language holding that language's boilerplate. */
  lemma ScaffoldAdds(files: map<string, string>, base: string, readmeText: string, config: seq<LangConfig>)
    ensures var r := Scaffold(files, base, readmeText, config);
      forall p :: p in r && p !in files ==>
        (p == base + "/README.md" && r[p] == readmeText) || IsScaffoldedSolution(base, config, p, r[p])
  {
    var targets := [(base + "/README.md", readmeText)] + SolutionTargets(base, config);
    var r := Scaffold(files, base, readmeText, config);
    WriteAllIfAbsentAdds(files, targets);
    forall p | p in r && p !in files
      ensures (p == base + "/README.md" && r[p] == readmeText) || IsScaffoldedSolution(base, config, p, r[p])
    {
      var i :| 0 <= i < |targets| && targets[i] == (p, r[p]);
      if i > 0 {
        assert targets[i] == SolutionTargets(base, config)[i - 1];
        SolutionTargetsSound(base, config, (p, r[p]));
      }
    }
  }

  /** The README.md and solution-file steps of create_problem_folder for the
      folder base. */
  method ScaffoldFiles(base: string, readmeText: string, config: seq<LangConfig>, files: map<string, string>)
    returns (files': map<string, string>)
    ensures files' == Scaffold(files, base, readmeText, config)
  {
    var readme := (base + "/README.md", readmeText);
    files' := files;
    if readme.0 !in files' {
      files' := files'[readme.0 := readme.1];
    }
    ghost var start := files';
    assert start == WriteAllIfAbsent(files, [readme]);
    for k := 0 to |config|
      invariant files' == WriteAllIfAbsent(start, SolutionTargets(base, config[..k]))
    {
      var lang := config[k];
      ghost var before := files';
      ghost var ts := LanguageTargets(base, lang);
      for t := 0 to |SolutionKinds|
        invariant files' == WriteAllIfAbsent(before, ts[..t])
      {
        var path := SolutionPath(base, lang.name, SolutionKinds[t], lang.ext);
        if path !in files' {
          files' := files'[path := lang.boilerplate];
        }
        WriteAllIfAbsentStep(before, ts, t);
      }
      assert ts[..|SolutionKinds|] == ts;
      assert config[..k + 1][..k] == config[..k];
      WriteAllIfAbsentAppend(start, SolutionTargets(base, config[..k]), ts);
    }
    assert config[..|config|] == config;
    WriteAllIfAbsentAppend(files, [readme], SolutionTargets(base, config));
  }

  /** create_problem_folder, without the UI template copy: writes README.md and
      every solution file that does not exist yet, and returns the metadata it
      writes to meta.json (always, replacing any earlier one). */
  method CreateProblemFolder(numberText: string, number: int, title: string, template: string,
                             config: seq<LangConfig>, createdAt: string, files: map<string, string>)
    returns (files': map<string, string>, meta: Dict<Json>)
    ensures files' == Scaffold(files, ProblemFolder(number, title), ReadmeText(numberText, title), config)
    ensures meta == NewMetadata(number, title, template, config, createdAt)
  {
    files' := ScaffoldFiles(ProblemFolder(number, title), ReadmeText(numberText, title), config, files);
    meta := NewMetadata(number, title, template, config, createdAt);
  }
}
