/**
  The hand-over between the updater and the page: the page reads back the
  `code` object the updater injected, and opens on the first language the
  metadata lists with that language's own solution file.
*/
module Pipeline {
  import opened Wrappers
  import opened OrderedDict
  import opened Records
  import opened UpdateProgress
  import opened ProblemView

  /** data.code[lang]?.[key] as the page reads it: the string at key, or
      nothing. */
  function TextAt(j: Json, key: string): string
  {
    if j.JObject? then
      var v: Option<Json> := Get(j.fields, key);
      if v.Some? && v.value.JStr? then v.value.s else ""
    else ""
  }

  /** One language's entry of the parsed code object. */
  function SolutionFromJson(j: Json): SolutionSet
  {
    SolutionSet(TextAt(j, SolutionKinds[0]), TextAt(j, SolutionKinds[1]))
  }

  /** The parsed code object as the page's ordered language table. */
  function CodeFromJson(j: Json): (code: Dict<SolutionSet>)
    ensures j.JObject? ==> Keys(code) == Keys(j.fields)
  {
    if j.JObject? then
      seq(|j.fields|, i requires 0 <= i < |j.fields| => (j.fields[i].0, SolutionFromJson(j.fields[i].1)))
    else []
  }

  /** Reading a language's solution object back gives its two texts. */
  lemma SolutionRoundTrip(texts: SolutionSet)
    ensures SolutionFromJson(SolutionJson(texts)) == texts
  {
    var fields := SolutionJson(texts).fields;
    assert fields[0].0 != fields[1].0;
    assert Get(fields, SolutionKinds[1]) == Get(fields[1..], SolutionKinds[1]);
  }

  /** The page reads back exactly the languages, in order, and the texts the
      updater injected. */
  lemma CodeRoundTrip(code: Dict<SolutionSet>)
    ensures CodeFromJson(CodeJson(code)) == code
  {
    var back := CodeFromJson(CodeJson(code));
    forall i | 0 <= i < |code| ensures back[i] == code[i] {
      SolutionRoundTrip(code[i].1);
    }
  }

  /** After an update, the page opens on the first language the metadata
      lists that the configuration knows, showing the user's solution file
      of that language, or the boilerplate when the file is empty or absent. */
  lemma PageOpensOnFirstLanguage(folder: string, items: seq<Json>, config: seq<LangConfig>,
                                 files: map<string, string>)
    requires CollectCode(folder, items, config, files).Some?
    requires KnownLanguages(items, config) != [] && KnownLanguages(items, config)[0] != ""
    ensures var lang := KnownLanguages(items, config)[0];
      var code := CodeFromJson(CodeJson(CollectCode(folder, items, config, files).value));
      && LookupLang(config, lang).Some?
      && DefaultLanguage(code) == lang
      && DisplayedCode(code, DefaultLanguage(code), User) ==
           OrElse(ReadFile(files, SolutionPath(folder, lang, SolutionKinds[0], LookupLang(config, lang).value.ext)),
                  DefaultBoilerplate)
  {
    var collected := CollectCode(folder, items, config, files).value;
    var lang := KnownLanguages(items, config)[0];
    CollectCodeContents(folder, items, config, files);
    CodeRoundTrip(collected);
    assert Keys(collected)[0] == collected[0].0 == lang;
    assert Get(collected, lang) == Some(collected[0].1);
    InitialDisplay(collected);
  }
}
