# A verified model of the LeetCode practice archive's tooling and problem page

The repository keeps one folder per practice problem (`problems/NNNN_slug/`).
Each folder holds a `meta.json` record, one sub-folder per configured language
with a user solution and a reference ("LeetCode") solution, and a generated
React page. This project models, in Dafny:

- **`tools/create_problem.py`** (module `CreateProblem`, `create_problem.dfy`):
  - the slug (`normalize_title`) and the zero-padded folder name;
  - the `meta.json` record of a new problem;
  - the scaffolding of `README.md` and the solution files, each written only
    when absent.
- **`tools/update_progress.py`** (module `UpdateProgress`, `update_progress.dfy`):
  - command-line parsing and `parse_value`;
  - the folder lookup;
  - applying `key=value` updates, including dotted `parent.child` keys;
  - collecting the solution texts of the listed languages;
  - the record injected into the page (`final_data`);
  - the placeholder replacement;
  - the whole `update_problem` run as a method over a workspace value.
- **`problems/0001_two-sum/ui/ProblemViewTemplate.tsx`** (module `ProblemView`,
  `problem_view.dfy`):
  - what the page derives from the injected record;
  - its two pieces of state, the selected language and the selected solution
    variant, as a class.
- **`problems/0001_two-sum/python/leetcode_solution.py`** (module `TwoSum`,
  `two_sum.dfy`): the one-pass hash-map Two Sum, as a loop proved against a
  specification function.

Shared building blocks:

- `Strings`: Python's `lower` (ASCII letters), `strip` (Python's whitespace
  set), `split`, `join`, `replace` and `split(c, 1)`.
- `Numbers`: decimal digits, Python's `f"{n:04d}"` and JavaScript's
  `padStart(4, "0")`.
- `OrderedDict`: Python dicts and JavaScript objects as insertion-ordered
  sequences of pairs.
- `Records`: the configuration entry, the solution pair and JSON values.
- `Pipeline`: how the updater's output meets the page, at the level of parsed values.
- `Embedding` (`embedding.dfy`): json.dumps of a string, the JSON string grammar, and how a
  JavaScript template literal reads the text placed between its backticks.

The file system is a map from path to contents. `os.listdir` order is a
parameter (the listing), and `json.dumps` is a function parameter. Where the
design description and the code differ, the model follows the code:

- The design calls difficulty an enumeration. The page accepts any string
  and styles every value other than "Hard" and "Medium" as the least severe.
- The design says the record is produced outside the system. Here its
  production by the two tools is modelled too.

## Model

| member | source | states |
|---|---|---|
| TwoSum.LastIndexBeforeSpec | problems/0001_two-sum/python/leetcode_solution.py:4-12 | what `prev_map` holds for a value when the loop reaches index i: the largest earlier index with that value, or nothing when there is none |
| TwoSum.FirstPairFromSpec | problems/0001_two-sum/python/leetcode_solution.py:6-13 | scanning from index i finds a pair summing to target, with the earliest possible second index and the latest matching first index, or [] exactly when no such pair exists |
| TwoSum.FirstPairSpec | problems/0001_two-sum/python/leetcode_solution.py:2-13 | twoSum's answer is [] iff no two distinct indices sum to target; otherwise it is two indices j < i with nums[j] + nums[i] == target, where i is minimal and j is the last earlier partner |
| TwoSum.TwoSum | problems/0001_two-sum/python/leetcode_solution.py:2-13 | the loop with its value-to-index map returns the specified pair, [] iff there is no pair, and a true pair otherwise |
| Strings.LowerSpec | tools/create_problem.py:21 | after lower() no upper-case letter is left, every other character is kept, every upper-case letter becomes its lower-case partner, and lowering twice changes nothing |
| Strings.Strip | tools/update_progress.py:130 | str.strip() with Python's whitespace set: the result has no surrounding whitespace, is the middle of the input, and every character removed from either end is whitespace |
| Strings.SplitFirst | tools/update_progress.py:50 | key.split('.', 1): no result iff there is no '.'; otherwise the head has no '.' and head + '.' + tail is the key |
| Strings.SplitFirstIsUnique | tools/update_progress.py:152 | the split at the first separator is the only split whose head is free of it |
| Strings.JoinOfSplit | tools/update_progress.py:130 | joining the pieces of a split with the separator gives back the string |
| Strings.SplitOfJoin | tools/update_progress.py:130 | splitting a join of separator-free pieces gives back the pieces |
| Strings.SplitCount | tools/update_progress.py:130 | splitting at a character gives one more piece than it has occurrences |
| Strings.SplitPiecesAreFree | tools/update_progress.py:130 | no piece of a split contains the separator |
| Strings.ReplaceAllIsSplitJoin | tools/update_progress.py:105 | str.replace(pat, rep) is splitting at pat and joining with rep |
| Strings.ReplaceAllOfFree | tools/update_progress.py:105 | replacing a pattern that does not occur changes nothing |
| Strings.ReplaceAllAtFirst | tools/update_progress.py:105 | the first occurrence is replaced and the scan resumes after it |
| Strings.PrefixUpToSeparator | tools/update_progress.py:18 | two separator-free heads are equal when one, plus the separator, is a prefix of the other plus the separator |
| Numbers.Digits | tools/create_problem.py:29 | str(n) for n >= 0: at least one character, all digits |
| Numbers.DecimalValueOfDigits | tools/create_problem.py:29 | the decimal digits of n denote n |
| Numbers.LeadingZerosKeepValue | tools/create_problem.py:29 | leading zeros do not change the value denoted |
| Numbers.PyFormat04Denotes | tools/create_problem.py:29 | f"{n:04d}" for n >= 0 is all digits, max(4, number of digits) long, and denotes n |
| Numbers.PyFormat04Negative | tools/create_problem.py:29 | f"{n:04d}" for n < 0 is '-' followed by at least three digits denoting -n |
| Numbers.PyFormat04Injective | tools/update_progress.py:16 | different numbers never get the same padded text |
| Numbers.PadStartAgreesWithFormat04 | problems/0001_two-sum/ui/ProblemViewTemplate.tsx:162 | the page's padStart(4, "0") agrees with the folder prefix for every n >= 0; for -5 they differ ("00-5" against "-005") |
| Numbers.NoUnderscoreInFormat04 | tools/create_problem.py:29 | the padded number never contains '_', so the '_' after it in a folder name ends it |
| OrderedDict.GetSomeIffKey | tools/update_progress.py:54 | `k in d` holds exactly when d.get(k) finds a value |
| OrderedDict.Put | tools/update_progress.py:55 | d[k] = v: afterwards k maps to v and every other key keeps its value |
| OrderedDict.PutKeys | tools/update_progress.py:55 | d[k] = v keeps the key order, appending k only when it is new |
| OrderedDict.PutKeepsDistinct | tools/update_progress.py:153 | assignment never duplicates a key |
| OrderedDict.PutAllKeepsKeyOrder | tools/update_progress.py:63-75 | a run of assignments keeps the existing keys, in order, at the front |
| OrderedDict.PutAllOther | tools/update_progress.py:63-75 | a key no assignment names keeps its value |
| OrderedDict.PutAllLastWins | tools/update_progress.py:148-153 | a key ends with the value of its last assignment |
| OrderedDict.PutAllKeys | tools/update_progress.py:148-153 | after a run of assignments a key is present iff it was present before or was assigned |
| Records.LookupLang | tools/update_progress.py:81 | config["languages"].get(lang): the entry named lang, or nothing exactly when none has that name |
| CreateProblem.LowerDashed | tools/create_problem.py:21 | after lower() and replace(" ", "-") no space and no upper-case letter is left |
| CreateProblem.NormalizeTitle | tools/create_problem.py:19-21 | the slug has no space, no upper-case letter and no surrounding whitespace |
| CreateProblem.NormalizeTitleIdempotent | tools/create_problem.py:19-21 | normalizing a slug again leaves it unchanged |
| CreateProblem.FolderNameLayout | tools/create_problem.py:27-29 | the folder name is the zero-padded number (at least four digits, never truncated, denoting the number), then '_', then the slug |
| CreateProblem.NewMetadataLanguages | tools/create_problem.py:48-80 | the new record lists one language per configuration entry, and lists a name exactly when the configuration has a language of that name |
| CreateProblem.MetadataRecord | tools/create_problem.py:75-91 | the record has exactly the eleven keys of the literal, in its order |
| CreateProblem.MetadataRecordIdentity | tools/create_problem.py:76-79 | problem_number, title, slug and template hold the given values |
| CreateProblem.MetadataRecordLanguages | tools/create_problem.py:80-81 | languages and created_at hold the given values |
| CreateProblem.MetadataRecordProgress | tools/create_problem.py:82-84 | a new problem is unsolved, has no complete notes and has no tags |
| CreateProblem.MetadataRecordDetails | tools/create_problem.py:85-90 | a new problem is "Easy" and its three links are empty strings |
| CreateProblem.WriteAllIfAbsentKeeps | tools/create_problem.py:36-59 | writing only absent files never changes an existing file |
| CreateProblem.WriteAllIfAbsentCreates | tools/create_problem.py:36-59 | afterwards every target path exists |
| CreateProblem.WriteAllIfAbsentAdds | tools/create_problem.py:36-59 | every new file is a target, holding that target's text |
| CreateProblem.SolutionTargetsComplete | tools/create_problem.py:49-55 | both solution files of every configured language are scaffolding targets |
| CreateProblem.SolutionTargetsSound | tools/create_problem.py:49-58 | every scaffolding target is a solution file of a configured language, holding its boilerplate |
| CreateProblem.ScaffoldKeeps | tools/create_problem.py:36-59 | create_problem_folder never overwrites a README or solution file |
| CreateProblem.ScaffoldCreates | tools/create_problem.py:36-59 | afterwards README.md and both solution files of every configured language exist |
| CreateProblem.ScaffoldAdds | tools/create_problem.py:36-59 | each created file is README.md with its text, or a solution file of a configured language with its boilerplate |
| CreateProblem.ScaffoldFiles | tools/create_problem.py:36-59 | the README step and the nested language and solution-kind loops produce exactly the specified file system |
| CreateProblem.CreateProblemFolder | tools/create_problem.py:23-94 | the resulting files are the scaffold under problems/<folder name>, and the record written is the new-problem metadata |
| UpdateProgress.ParseValueCases | tools/update_progress.py:122-132 | parse_value gives True iff the lower-cased value is "true", and False iff it is "false"; otherwise a comma gives the list whose i-th item is the i-th comma-separated part, stripped (Count(',') + 1 items, each free of surrounding whitespace); otherwise the string itself |
| UpdateProgress.CommaValueIsNotBoolean | tools/update_progress.py:124-129 | a value with a comma never reaches the boolean cases |
| UpdateProgress.TagItemsOfStripped | tools/update_progress.py:130 | stripping already stripped tags leaves them as they are |
| UpdateProgress.ParseValueOfJoinedTags | tools/update_progress.py:129-130 | parse_value(",".join(tags)) gives back the tags for two or more comma-free stripped tags |
| UpdateProgress.ApplyUpdateSpec | tools/update_progress.py:47-58 | one update never adds or reorders keys and changes only its top-level key. A plain key is set only if present. A dotted key sets parent[child] only when the parent is an object, keeping the parent's other fields; otherwise it is skipped |
| UpdateProgress.ApplyUpdates | tools/update_progress.py:47-58 | the loop over the updates computes the left-to-right application of every update |
| UpdateProgress.ApplyAllKeepsKeys | tools/update_progress.py:47-58 | updating never adds, removes or reorders a metadata key |
| UpdateProgress.ApplyAllUntouched | tools/update_progress.py:47-58 | a key no update names keeps its value |
| UpdateProgress.ApplyUpdateOther | tools/update_progress.py:49-56 | one update leaves every other top-level key alone |
| UpdateProgress.ApplyUpdatePlain | tools/update_progress.py:54-55 | a plain present key takes the new value |
| UpdateProgress.ApplyAllLastWins | tools/update_progress.py:47-58 | a present plain key ends with the value of the last update touching it |
| UpdateProgress.LanguageItems | tools/update_progress.py:80 | meta_data.get("languages", []) as iterated: nothing when absent; iteration fails exactly for null, booleans and numbers |
| UpdateProgress.KnownLanguagesMembers | tools/update_progress.py:80-88 | a language gets a code entry iff the metadata lists it and the configuration has it |
| UpdateProgress.KnownLanguagesDistinct | tools/update_progress.py:88 | each language appears once in the code object |
| UpdateProgress.CollectCodeStaysFailed | tools/update_progress.py:80-81 | once the loop has failed it stays failed |
| UpdateProgress.CollectCodeFails | tools/update_progress.py:80-81 | collecting the code fails iff some listed item is a list or an object, which `.get` cannot hash |
| UpdateProgress.CollectCodeContents | tools/update_progress.py:80-91 | the code object's keys are the known languages in listing order, and each holds the two solution files of its configured extension |
| UpdateProgress.AggregateCode | tools/update_progress.py:80-91 | the loop, with its `continue` and its early failure, computes the specified code object |
| UpdateProgress.CodeJson | tools/update_progress.py:88-91 | one code-object entry per language |
| UpdateProgress.CodeJsonLookup | tools/update_progress.py:88-91 | looking up a language in the code object finds exactly its user_solution / leetcode_solution object |
| UpdateProgress.InjectedEntries | tools/update_progress.py:67-75 | final_data receives exactly the seven fields statement, approach, timeComplexity, spaceComplexity, notes, examples and code |
| UpdateProgress.FinalDataKeepsMetadata | tools/update_progress.py:63-75 | final_data keeps the metadata keys in order at the front, and every non-injected field unchanged |
| UpdateProgress.FinalDataCode | tools/update_progress.py:72-91 | final_data's code is the collected code object and its examples are empty |
| UpdateProgress.InjectSplitsAtPlaceholders | tools/update_progress.py:105 | the page text is the template with every placeholder occurrence replaced by the backquoted JSON |
| UpdateProgress.InjectWithoutPlaceholder | tools/update_progress.py:105 | a template without the placeholder is written unchanged |
| UpdateProgress.InjectOnce | tools/update_progress.py:105 | a template with one placeholder gets the backquoted JSON at that place and nothing else changes |
| UpdateProgress.FirstInvalid | tools/update_progress.py:148-151 | the first argument without '=', or none exactly when every argument has one |
| UpdateProgress.FirstInvalidAt | tools/update_progress.py:148-151 | the loop stops at the first argument without '=' |
| UpdateProgress.ParsedUpdatesLastWins | tools/update_progress.py:152-153 | a key given several times keeps its last value |
| UpdateProgress.ParsedUpdatesKeys | tools/update_progress.py:147-153 | the updates dict has no duplicate keys and holds exactly the given keys |
| UpdateProgress.ParsedUpdatesStep | tools/update_progress.py:152-153 | each argument assigns its parsed value to its key |
| UpdateProgress.ParseCommandLine | tools/update_progress.py:134-153 | fewer than two arguments is a usage error. Otherwise the first argument without '=' is an error. Otherwise the result is the problem number and the parsed updates |
| UpdateProgress.FirstWithPrefix | tools/update_progress.py:17-20 | the first listed name with the prefix, or none exactly when no name has it |
| UpdateProgress.FindByPrefix | tools/update_progress.py:17-20 | the listing loop returns the first name with the prefix |
| UpdateProgress.FolderNamesOf1000And10000 | tools/update_progress.py:16 | problems 1000 and 10000 get folders "1000_…" and "10000_…", and 1000's search prefix is "1000" |
| UpdateProgress.CollidingListing | tools/update_progress.py:17-19 | in the listing ["10000_a", "1000_b"] the prefix "1000" first matches "10000_a", while "1000_" matches "1000_b" |
| UpdateProgress.PaddedNumberCollides | tools/update_progress.py:16-19 | as written, looking up problem 1000 can return problem 10000's folder; the corrected lookup returns 1000's |
| UpdateProgress.DigitsBound | tools/update_progress.py:16 | a number below 10^k has at most k digits |
| UpdateProgress.PaddedNumberExactBelow10000 | tools/update_progress.py:16-18 | below 10000 the as-written prefix test is exact: a folder matches iff it has the same number |
| UpdateProgress.FolderKeyExact | tools/update_progress.py:16-18 | with the '_' after the padded number, a folder matches iff it has the same number, for every integer |
| UpdateProgress.FindProblemFolderFinds | tools/update_progress.py:11-20 | over folders named by create_problem, the corrected lookup finds nothing iff no folder has the number, and otherwise the first folder that has it |
| UpdateProgress.FirstWithPrefixAlike | tools/update_progress.py:17-20 | two prefixes that every listed name matches alike find the same folder |
| UpdateProgress.LookupsAgreeBelow10000 | tools/update_progress.py:16-19 | when the number and every listed folder's number are below 10000, the lookup as written and the corrected lookup return the same folder |
| UpdateProgress.TemplateName | tools/update_progress.py:94 | meta_data["template"] is usable exactly when it is present and a string |
| UpdateProgress.UpdateProblem | tools/update_progress.py:29-118 | the folder is found by the lookup as written (the bare padded number). The errors come in source order (no folder, no meta.json, languages not iterable, unhashable language, bad template field, no template file, no ui/ folder to write the page into) and none writes anything. On success meta.json holds the updated metadata, and the page is the template with the dumped final_data injected. Nothing else changes |
| ProblemView.DifficultyColor | problems/0001_two-sum/ui/ProblemViewTemplate.tsx:133-138 | red iff "Hard", yellow iff "Medium", green for every other string |
| ProblemView.DifficultyColorOrder | problems/0001_two-sum/ui/ProblemViewTemplate.tsx:133-138 | "Hard" gets the most severe colour; colours rank Easy < Medium < Hard |
| ProblemView.PaddedNumber | problems/0001_two-sum/ui/ProblemViewTemplate.tsx:162 | the badge is at least four characters, and longer only as far as the number's own text is |
| ProblemView.PaddedNumberDenotes | problems/0001_two-sum/ui/ProblemViewTemplate.tsx:162 | for n >= 0 the badge is all digits, denotes n and equals the folder-name prefix |
| ProblemView.HeaderLink | problems/0001_two-sum/ui/ProblemViewTemplate.tsx:187-189 | the header button appears iff links.leetcode is a non-empty string, pointing at it |
| ProblemView.FallbackText | problems/0001_two-sum/ui/ProblemViewTemplate.tsx:227-304 | every fallback text is non-empty |
| ProblemView.ShownTextSpec | problems/0001_two-sum/ui/ProblemViewTemplate.tsx:227-304 | statement, approach, complexities and notes are shown as they are when non-empty and as their fallback otherwise; nothing is ever blank |
| ProblemView.StatusText | problems/0001_two-sum/ui/ProblemViewTemplate.tsx:318 | "Solved" iff solved, "In Progress" iff not |
| ProblemView.LanguagesLineLists | problems/0001_two-sum/ui/ProblemViewTemplate.tsx:325 | splitting the languages line at ", " gives back the upper-cased names when none holds a comma |
| ProblemView.QuickLinksSpec | problems/0001_two-sum/ui/ProblemViewTemplate.tsx:335-343 | a quick link is listed iff its address is non-empty, with that address, once, in the order GitHub, LeetCode, discussion |
| ProblemView.QuickLinksLeetCodeOnly | problems/0001_two-sum/ui/ProblemViewTemplate.tsx:335-343 | an empty GitHub address and a LeetCode address give exactly the LeetCode link |
| ProblemView.DefaultLanguage | problems/0001_two-sum/ui/ProblemViewTemplate.tsx:128 | the first language key unless there is none or it is "", then "python"; never empty |
| ProblemView.DisplayedCodeSpec | problems/0001_two-sum/ui/ProblemViewTemplate.tsx:288 | the panel shows the selected variant's text of the selected language when non-empty, and the boilerplate when the language is missing or its text is empty |
| ProblemView.InitialDisplay | problems/0001_two-sum/ui/ProblemViewTemplate.tsx:128-130 | on first render the panel shows the first language's user solution, or the boilerplate; an empty code object shows the boilerplate |
| ProblemView.View.constructor | problems/0001_two-sum/ui/ProblemViewTemplate.tsx:128-130 | the page starts on the default language and the user's solution |
| ProblemView.View.SelectLanguage | problems/0001_two-sum/ui/ProblemViewTemplate.tsx:274 | a language button changes only the selected language; the panel then shows that language's text of the current variant |
| ProblemView.View.SelectVariant | problems/0001_two-sum/ui/ProblemViewTemplate.tsx:252-260 | the toggle changes only the variant; the panel then shows that variant of the current language |
| ProblemView.ReselectLanguage | problems/0001_two-sum/ui/ProblemViewTemplate.tsx:274-288 | selecting language a, then b, then a again shows a's text again |
| ProblemView.ToggleVariantBack | problems/0001_two-sum/ui/ProblemViewTemplate.tsx:252-260 | toggling the variant and back restores the state and the panel |
| Pipeline.CodeFromJson | problems/0001_two-sum/ui/ProblemViewTemplate.tsx:288 | the page's language table has the parsed code object's keys in order |
| Pipeline.SolutionRoundTrip | problems/0001_two-sum/ui/ProblemViewTemplate.tsx:288 | the page reads a language's two texts back from the object the updater wrote |
| Pipeline.CodeRoundTrip | tools/update_progress.py:88-91 | the page reads back exactly the languages, in order, and the texts the updater collected |
| Pipeline.PageOpensOnFirstLanguage | problems/0001_two-sum/ui/ProblemViewTemplate.tsx:128 | after an update the page opens on the first listed, configured language and shows its user solution file, or the boilerplate when that file is empty or missing |
| Embedding.DumpsBodyIsString | tools/update_progress.py:102 | json.dumps writes every character of a string as characters or escapes that a JSON string allows |
| Embedding.DumpsStringIsToken | tools/update_progress.py:102 | json.dumps of any string is exactly one JSON string token, as section 7 of RFC 8259 defines it |
| Embedding.LineBreakBreaksEmbedding | tools/update_progress.py:102-105 | the dumped text of "a\nb" is a valid JSON string, but read as a template literal it holds a raw line feed and is no JSON string |
| Embedding.QuoteBreaksEmbedding | tools/update_progress.py:102-105 | the dumped text of a lone double quote is a valid JSON string, but read as a template literal it becomes three quotes and is no JSON string |
| Embedding.CookEscapeForTemplate | problems/0001_two-sum/ui/ProblemViewTemplate.tsx:23 | escaping backslash, backtick, dollar sign and carriage return makes a template literal read back exactly the escaped string, for every string |
| Embedding.InjectEscapedOnce | tools/update_progress.py:105 | with escaping, a template holding one placeholder gets a literal whose value is exactly the dumped JSON text, and nothing else changes |
| Embedding.EscapedDumpsStaysToken | problems/0001_two-sum/ui/ProblemViewTemplate.tsx:106 | with escaping, JSON.parse receives json.dumps' text of any string unchanged, which is a JSON string token |

## Left out

- The terminal output of both tools: progress messages, warnings and the usage text. The `sys.exit(1)` paths are modelled as error results.
- `json.load` and `json.dumps`. Metadata is an already parsed value, and the page text takes the dumped JSON from a `dumps` parameter. A parse failure of meta.json or config.json is not modelled.
- `load_config`'s missing-file exit. The configuration is an already loaded list of language entries.
- UpdateProgress.UpdateProblem: the problem number is an integer. `int(problem_number)` of a non-numeric argument raises, and that path is not modelled.
- UpdateProgress.UpdateProblem: a configuration entry that is falsy (an empty object) or lacks "ext" is not modelled. Every entry has a name, an extension and a boilerplate.
- UpdateProgress.UpdateProblem: the closing message reads `meta_data['title']` after both files are written. Its KeyError is left out because it changes no file.
- UpdateProgress.UpdateProblem: the workspace does not check that `problems/` exists.
- os.path.join and the file system are plain strings and a map, so separators are always '/'.
- CreateProblem.CreateProblemFolder: directory creation and the UI template copy are left out; the map holds files only. When `templates/<template>` exists, the code removes any existing `ui/` folder (`shutil.rmtree`) and copies the whole template folder in its place (`copytree`); a template made by `create_template.py` holds ProblemViewTemplate.tsx, index.ts and preview.tsx. That copy is what creates the `ui/` directory `UpdateProgress.UpdateProblem` requires, and on a re-run it discards a page the updater injected earlier. The updater later overwrites only `ui/ProblemViewTemplate.tsx`; the other copied files stay as copied.
- CreateProblem.CreateProblemFolder: `datetime.now()` is the `createdAt` parameter. `int(problem_number)` of a non-numeric argument is not modelled, and the number is an integer.
- ProblemView: the markup, styling, animation, icons, the tag list and the examples list are left out. The date formatting with `toLocaleDateString` depends on the locale.
- ProblemView: JavaScript puts integer-like object keys first in `Object.keys`. The model keeps insertion order, which agrees for language names.
- ProblemView: a key inherited from `Object.prototype` (such as "constructor") is not modelled.
- Pipeline.CodeFromJson: a solution value that is not a string is read as "". The page would show it converted to text.
- Strings.Lower: only ASCII letters are lower-cased; Python's lower() also maps other Unicode letters.
- Numbers.JsString: JavaScript writes numbers whose magnitude is 1e21 or more in exponent form ("1e+21"); the model writes every integer in plain decimal, so the badge differs from the page for those.
- UpdateProgress.UpdateProblem: the page is injected as the code writes it, without escaping; the escaped variant is `Embedding.InjectEscaped` (see Findings).
- Pipeline.CodeRoundTrip: holds for parsed values only. It takes JSON.parse to receive exactly the text json.dumps wrote, which the template-literal embedding does not guarantee (see Findings).
- Pipeline.PageOpensOnFirstLanguage: holds for parsed values only, for the same reason as Pipeline.CodeRoundTrip.
- Embedding.DumpsString: covers json.dumps of one string with the default ensure_ascii; dumping the whole record with indent=2 stays the `dumps` parameter.
- Embedding.Cook: octal and digit escapes, `\x` and `\u` escapes and line continuations are not decoded; a text holding one reads as no value. Neither json.dumps' output nor the escaped text contains them, except `\u` in json.dumps' output.
- ProblemView: the quick-link labels and the CSS class names of the severity badge belong to the markup and are left out with it.
- The viewer application, the slug router and the other tools (`create_template.py`, `add_language.py`, `update_template.py`) are not part of this model.

## Findings

| source | as written | input that shows it | evidently intended | confidence | as-written member | corrected member |
|---|---|---|---|---|---|---|
| tools/update_progress.py:16-19 | the folder is the first listed name that starts with `f"{n:04d}"`, so the number is matched as a text prefix | problem 1000 with folders `10000_a` and `1000_b` listed in that order: the lookup returns `problems/10000_a` | match the padded number followed by the `_` that create_problem.py puts after it | not executed | UpdateProgress.PaddedNumberCollides | UpdateProgress.FolderKeyExact |
| tools/update_progress.py:102-105 | the text of json.dumps is placed between backticks, as the body of a JavaScript template literal, and the page hands the literal's value to JSON.parse (ProblemViewTemplate.tsx lines 23 and 106) | a solution text holding a line break, "a\nb": json.dumps writes `"a\\nb"`, the template literal reads `\n` as a raw line feed, and no JSON string may hold one; a double quote in a text likewise ends the JSON string early, and a backtick ends the literal | escape backslash, backtick and dollar sign before embedding, so that the literal's value is exactly the dumped text | not executed | Embedding.LineBreakBreaksEmbedding | Embedding.CookEscapeForTemplate |

`UpdateProgress.FindProblemFolderAsWritten` uses the bare padded number, and
`UpdateProblem` uses it, as the code does. `UpdateProgress.FindProblemFolder`
uses the padded number plus `_`. The two return the same folder when the
requested number and every listed folder's number are below 10000
(`UpdateProgress.LookupsAgreeBelow10000`).

`UpdateProblem` also injects the dumped record as the code does, unescaped.
`Embedding.InjectEscaped` is the corrected injection, and
`Embedding.InjectEscapedOnce` and `Embedding.EscapedDumpsStaysToken` prove
that the page then parses exactly what json.dumps wrote.
