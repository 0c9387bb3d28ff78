/**
  The problem page (ProblemViewTemplate.tsx): what it derives from the
  injected record (badge colour, padded number, fallback texts, links,
  status and languages lines, the code shown) and its two pieces of state,
  the selected language and the selected solution variant.
*/
module ProblemView {
  import opened Wrappers
  import opened Strings
  import opened Numbers
  import opened OrderedDict
  import opened Records

  /** Which of a language's two solutions the code panel shows. */
  datatype Variant = User | LeetCode

  /** The optional addresses of the record's links object. */
  datatype Links = Links(leetcode: Option<string>, github: Option<string>, discussion: Option<string>)

  /** The fields of the injected record the page reads. */
  datatype ProblemData = ProblemData(
    problemNumber: int,
    title: string,
    difficulty: string,
    tags: seq<string>,
    links: Links,
    code: Dict<SolutionSet>,
    solved: bool,
    notesComplete: bool,
    statement: string,
    approach: string,
    timeComplexity: string,
    spaceComplexity: string,
    notes: string)

  // ---------------------------------------------------------------------
  // Difficulty badge
  // ---------------------------------------------------------------------

  datatype Severity = Red | Yellow | Green

  /** How alarming a badge colour is: red above yellow above green. */
  function Rank(s: Severity): nat
  {
    match s
    case Red => 2
    case Yellow => 1
    case Green => 0
  }

  /** difficultyColor: "Hard" is red, "Medium" yellow, any other string green. */
  function DifficultyColor(difficulty: string): (s: Severity)
    ensures s == Red <==> difficulty == "Hard"
    ensures s == Yellow <==> difficulty == "Medium"
    ensures s == Green <==> difficulty != "Hard" && difficulty != "Medium"
  {
    if difficulty == "Hard" then Red
    else if difficulty == "Medium" then Yellow
    else Green
  }

  /** "Hard" gets the most alarming colour, and the colours follow the
      difficulty order. */
  lemma DifficultyColorOrder(difficulty: string)
    ensures Rank(DifficultyColor(difficulty)) <= Rank(DifficultyColor("Hard"))
    ensures difficulty != "Hard" ==> Rank(DifficultyColor(difficulty)) <= Rank(DifficultyColor("Medium"))
    ensures Rank(DifficultyColor("Easy")) < Rank(DifficultyColor("Medium")) < Rank(DifficultyColor("Hard"))
  {
  }

  // ---------------------------------------------------------------------
  // Header
  // ---------------------------------------------------------------------

  /** String(problem_number).padStart(4, "0") */
  function PaddedNumber(n: int): (r: string)
    ensures |r| >= 4
    ensures |r| == if |JsString(n)| < 4 then 4 else |JsString(n)|
  {
    JsPadStart4(n)
  }

  /** For a non-negative number the badge is all digits, at least four, and
      denotes the number; it is the same text as the folder-name prefix. */
  lemma PaddedNumberDenotes(n: nat)
    ensures AllDigits(PaddedNumber(n)) && DecimalValue(PaddedNumber(n)) == n
    ensures PaddedNumber(n) == PyFormat04(n)
  {
    PadStartAgreesWithFormat04(n);
    PyFormat04Denotes(n);
  }

  /** The header's "View on LeetCode" button, present when links.leetcode is
      a non-empty string. */
  function HeaderLink(links: Links): (r: Option<string>)
    ensures r.Some? <==> links.leetcode.Some? && links.leetcode.value != ""
    ensures r.Some? ==> r == links.leetcode
  {
    if links.leetcode.Some? && links.leetcode.value != "" then links.leetcode else None
  }

  // ---------------------------------------------------------------------
  // Text fallbacks
  // ---------------------------------------------------------------------

  /** The text fields the page shows with a fallback. */
  datatype TextField = Statement | Approach | TimeComplexity | SpaceComplexity | Notes

  function FieldValue(data: ProblemData, field: TextField): string
  {
    match field
    case Statement => data.statement
    case Approach => data.approach
    case TimeComplexity => data.timeComplexity
    case SpaceComplexity => data.spaceComplexity
    case Notes => data.notes
  }

  function FallbackText(field: TextField): (t: string)
    ensures t != ""
  {
    match field
    case Statement => "Problem statement not available."
    case Approach => "No approach documented yet."
    case TimeComplexity => "N/A"
    case SpaceComplexity => "N/A"
    case Notes => "Add your implementation notes, edge cases, and insights here."
  }

  /** JavaScript's `text || fallback` for a string. */
  function OrElse(text: string, fallback: string): string
  {
    if text != "" then text else fallback
  }

  /** What the page shows for a text field. */
  function ShownText(data: ProblemData, field: TextField): string
  {
    OrElse(FieldValue(data, field), FallbackText(field))
  }

  /** A field is shown as it is unless it is empty, when its fixed fallback is
      shown instead; the page never shows an empty text. */
  lemma ShownTextSpec(data: ProblemData, field: TextField)
    ensures ShownText(data, field) != ""
    ensures FieldValue(data, field) != "" ==> ShownText(data, field) == FieldValue(data, field)
    ensures FieldValue(data, field) == "" ==> ShownText(data, field) == FallbackText(field)
  {
  }

  // ---------------------------------------------------------------------
  // Metadata column
  // ---------------------------------------------------------------------

  /** The status line. */
  function StatusText(solved: bool): (t: string)
    ensures t == "Solved" <==> solved
    ensures t == "In Progress" <==> !solved
  {
    if solved then "Solved" else "In Progress"
  }

  /** Object.keys(code).map((k) => k.toUpperCase()) */
  function UpperKeys(code: Dict<SolutionSet>): (ks: seq<string>)
    ensures |ks| == |code|
    ensures forall i :: 0 <= i < |code| ==> ks[i] == Upper(code[i].0)
  {
    seq(|code|, i requires 0 <= i < |code| => Upper(code[i].0))
  }

  /** The languages line: the upper-cased language names joined with ", ". */
  function LanguagesLine(code: Dict<SolutionSet>): string
  {
    Join(UpperKeys(code), ", ")
  }

  /** Splitting the languages line at ", " gives back the upper-cased names,
      one per language, as long as no name holds a comma. */
  lemma LanguagesLineLists(code: Dict<SolutionSet>)
    requires |code| >= 1
    requires forall i :: 0 <= i < |code| ==> ',' !in code[i].0
    ensures Split(LanguagesLine(code), ", ") == UpperKeys(code)
  {
    var ks := UpperKeys(code);
    forall k | 0 <= k < |ks| ensures ", "[0] !in ks[k] {
      forall j | 0 <= j < |ks[k]| ensures ks[k][j] != ',' {
        assert ks[k][j] == ToUpper(code[k].0[j]);
        assert code[k].0[j] != ',';
      }
    }
    SplitOfJoin(ks, ", ");
  }

  datatype LinkKind = GitHub | LeetCodeLink | Discussion

  /** The order the quick links are listed in. */
  function LinkOrder(kind: LinkKind): nat
  {
    match kind
    case GitHub => 0
    case LeetCodeLink => 1
    case Discussion => 2
  }

  function LinkAddress(links: Links, kind: LinkKind): Option<string>
  {
    match kind
    case GitHub => links.github
    case LeetCodeLink => links.leetcode
    case Discussion => links.discussion
  }

  /** A link is rendered when its address is a non-empty string. */
  predicate Shown(links: Links, kind: LinkKind)
  {
    LinkAddress(links, kind).Some? && LinkAddress(links, kind).value != ""
  }

  /** The quick links, as (kind, address) pairs in the order listed. */
  function QuickLinks(links: Links): seq<(LinkKind, string)>
  {
    (if Shown(links, GitHub) then [(GitHub, links.github.value)] else [])
    + (if Shown(links, LeetCodeLink) then [(LeetCodeLink, links.leetcode.value)] else [])
    + (if Shown(links, Discussion) then [(Discussion, links.discussion.value)] else [])
  }

  /** A quick link is listed exactly when its address is non-empty, with that
      address, at most once, and always in the order GitHub, LeetCode,
      discussion. */
  lemma QuickLinksSpec(links: Links, kind: LinkKind)
    ensures var q := QuickLinks(links);
      && |q| <= 3
      && (Shown(links, kind) <==> exists i :: 0 <= i < |q| && q[i].0 == kind)
      && (forall i :: 0 <= i < |q| ==> Shown(links, q[i].0) && Some(q[i].1) == LinkAddress(links, q[i].0))
      && (forall i, j :: 0 <= i < j < |q| ==> LinkOrder(q[i].0) < LinkOrder(q[j].0))
  {
    var g := if Shown(links, GitHub) then [(GitHub, links.github.value)] else [];
    var l := if Shown(links, LeetCodeLink) then [(LeetCodeLink, links.leetcode.value)] else [];
    var d := if Shown(links, Discussion) then [(Discussion, links.discussion.value)] else [];
    var q := QuickLinks(links);
    assert q == g + l + d;
    if Shown(links, kind) {
      var i := match kind case GitHub => 0 case LeetCodeLink => |g| case Discussion => |g| + |l|;
      assert 0 <= i < |q| && q[i].0 == kind;
    }
  }

  /** With an empty GitHub address, a LeetCode address and no discussion
      address, the quick links are the LeetCode link alone. */
  lemma QuickLinksLeetCodeOnly(leetcode: string, discussion: Option<string>)
    requires leetcode != ""
    requires discussion.None? || discussion == Some("")
    ensures QuickLinks(Links(Some(leetcode), Some(""), discussion)) == [(LeetCodeLink, leetcode)]
  {
  }

  // ---------------------------------------------------------------------
  // The code panel
  // ---------------------------------------------------------------------

  const DefaultBoilerplate: string :=
    "// Your code solution will appear here.\n// Edit the corresponding file and run the update script."

  /** Object.keys(code)[0] || "python": the first language, unless there is
      none or it is the empty string. */
  function DefaultLanguage(code: Dict<SolutionSet>): (lang: string)
    ensures lang != ""
    ensures |code| > 0 && code[0].0 != "" ==> lang == code[0].0
    ensures lang == "python" || (|code| > 0 && lang == code[0].0)
  {
    if |code| > 0 && code[0].0 != "" then code[0].0 else "python"
  }

  /** code[lang]?.[variant's key] || defaultBoilerplate */
  function DisplayedCode(code: Dict<SolutionSet>, lang: string, variant: Variant): string
  {
    var text :=
      match Get(code, lang)
      case None => ""
      case Some(texts) => if variant == User then texts.userSolution else texts.leetcodeSolution;
    OrElse(text, DefaultBoilerplate)
  }

  /** The panel shows the selected variant's text when the language has one
      that is non-empty, and the boilerplate otherwise. */
  lemma DisplayedCodeSpec(code: Dict<SolutionSet>, lang: string, variant: Variant)
    ensures DisplayedCode(code, lang, variant) != ""
    ensures Get(code, lang).None? ==> DisplayedCode(code, lang, variant) == DefaultBoilerplate
    ensures lang !in Keys(code) ==> DisplayedCode(code, lang, variant) == DefaultBoilerplate
    ensures Get(code, lang).Some? ==>
      var texts := Get(code, lang).value;
      var text := if variant == User then texts.userSolution else texts.leetcodeSolution;
      DisplayedCode(code, lang, variant) == (if text == "" then DefaultBoilerplate else text)
  {
    GetSomeIffKey(code, lang);
  }

  /** On first render the panel shows the first language's own solution, or
      the boilerplate when it has none. */
  lemma InitialDisplay(code: Dict<SolutionSet>)
    ensures |code| > 0 && code[0].0 != "" ==>
      DisplayedCode(code, DefaultLanguage(code), User) == OrElse(code[0].1.userSolution, DefaultBoilerplate)
    ensures code == [] ==> DisplayedCode(code, DefaultLanguage(code), User) == DefaultBoilerplate
  {
  }

  /** The page's state: the record it shows and the two selections. */
  class View {
    const data: ProblemData
    var selectedLang: string
    var solutionType: Variant

    /** The state right after JSON.parse: the default language and the
        user's own solution. */
    constructor (data: ProblemData)
      ensures this.data == data
      ensures selectedLang == DefaultLanguage(data.code)
      ensures solutionType == User
    {
      this.data := data;
      selectedLang := DefaultLanguage(data.code);
      solutionType := User;
    }

    /** The text the code panel shows now. */
    function Displayed(): string
      reads this
    {
      DisplayedCode(data.code, selectedLang, solutionType)
    }

    /** A language button: setSelectedLang(lang). */
    method SelectLanguage(lang: string)
      modifies this
      ensures selectedLang == lang && solutionType == old(solutionType)
      ensures Displayed() == DisplayedCode(data.code, lang, old(solutionType))
    {
      selectedLang := lang;
    }

    /** The "Your Solution" / "LeetCode Solution" toggle: setSolutionType. */
    method SelectVariant(variant: Variant)
      modifies this
      ensures solutionType == variant && selectedLang == old(selectedLang)
      ensures Displayed() == DisplayedCode(data.code, old(selectedLang), variant)
    {
      solutionType := variant;
    }
  }

  /** Choosing language a, then b, then a again shows a's text again: the
      panel depends on the two selections alone. */
  method ReselectLanguage(view: View, a: string, b: string) returns (first: string, again: string)
    modifies view
    ensures first == again
    ensures again == DisplayedCode(view.data.code, a, old(view.solutionType))
    ensures view.selectedLang == a && view.solutionType == old(view.solutionType)
  {
    view.SelectLanguage(a);
    first := view.Displayed();
    view.SelectLanguage(b);
    view.SelectLanguage(a);
    again := view.Displayed();
  }

  /** Toggling the variant and back restores the panel. */
  method ToggleVariantBack(view: View, other: Variant) returns (first: string, again: string)
    modifies view
    ensures first == again
    ensures view.selectedLang == old(view.selectedLang) && view.solutionType == old(view.solutionType)
  {
    var original := view.solutionType;
    first := view.Displayed();
    view.SelectVariant(other);
    view.SelectVariant(original);
    again := view.Displayed();
  }
}
