/**
  Values shared by the two tools and the page: a language's entry in
  tools/config.json, the two solution files of a language, and the JSON
  values meta.json holds.
*/
module Records {
  import opened Wrappers

  /** One entry of config.json's "languages" object: its key, the file
      extension and the boilerplate a new solution file starts with. */
  datatype LangConfig = LangConfig(name: string, ext: string, boilerplate: string)

  /** The two solution texts of one language. */
  datatype SolutionSet = SolutionSet(userSolution: string, leetcodeSolution: string)

  /** A parsed JSON value. Objects keep their key order, as Python dicts do. */
  datatype Json =
    | JNull
    | JBool(b: bool)
    | JInt(n: int)
    | JStr(s: string)
    | JList(items: seq<Json>)
    | JObject(fields: seq<(string, Json)>)

  /** The two solution file stems, in the order the scaffolder creates them. */
  const SolutionKinds: seq<string> := ["user_solution", "leetcode_solution"]

  /** os.path.join(folder, lang, f"{kind}.{ext}") */
  function SolutionPath(folder: string, lang: string, kind: string, ext: string): string
  {
    folder + "/" + lang + "/" + kind + "." + ext
  }

  /** config["languages"].get(lang) */
  function LookupLang(config: seq<LangConfig>, lang: string): (r: Option<LangConfig>)
    ensures r.Some? ==> r.value.name == lang && r.value in config
    ensures r.None? <==> forall k :: 0 <= k < |config| ==> config[k].name != lang
  {
    if config == [] then None
    else if config[0].name == lang then Some(config[0])
    else LookupLang(config[1..], lang)
  }
}
