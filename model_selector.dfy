/**
 * The pure helpers of `src/components/ui/ModelSelector.tsx`: splitting an
 * Ollama model name into family and size, the initials and colour of a
 * family, the badge class of a size, and the search filter over the model
 * list.
 */
module ModelSelector {
  import opened Strings

  datatype ModelInfo = ModelInfo(family: string, size: Option<string>, fullName: string)

  /** The class `[\w-]`. */
  predicate IsWordOrDash(c: char) {
    IsWordChar(c) || c == '-'
  }

  /**
   * The regular expression `/([\w-]+)-([\w]+)$/` matches `s` from index `i`
   * with its `-` at index `d`: group 1 is `s[i..d]`, group 2 is `s[d+1..]`.
   */
  ghost predicate RegexMatchAt(s: string, i: int, d: int) {
    && 0 <= i < d < |s| - 1
    && s[d] == '-'
    && (forall k :: i <= k < d ==> IsWordOrDash(s[k]))
    && (forall k :: d < k < |s| ==> IsWordChar(s[k]))
  }

  /** The start of the run of `[\w-]` characters that ends just before index `j`. */
  function RunStart(s: string, j: nat): (i: nat)
    requires j <= |s|
    ensures i <= j
    ensures forall k :: i <= k < j ==> IsWordOrDash(s[k])
    ensures i > 0 ==> !IsWordOrDash(s[i - 1])
  {
    if j > 0 && IsWordOrDash(s[j - 1]) then RunStart(s, j - 1) else j
  }

  /** `s.match(/([\w-]+)-([\w]+)$/)`, computed from the last `-`. */
  function SizeMatch(s: string): Option<(nat, nat)> {
    var d := LastIndexOf(s, '-');
    if d >= 1 && d < |s| - 1 && IsWordOrDash(s[d - 1]) && (forall k :: d < k < |s| ==> IsWordChar(s[k]))
    then Some((RunStart(s, d), d))
    else None
  }

  /** `parseModelInfo(modelName)`. */
  function ParseModelInfo(modelName: string): ModelInfo {
    var fullName := Split(modelName, ':')[0];
    match SizeMatch(fullName)
    case Some((i, d)) => ModelInfo(fullName[i..d], Some(fullName[d + 1..]), fullName)
    case None => ModelInfo(fullName, None, fullName)
  }

  lemma {:induction false} RunStartIsLeftmost(s: string, i: nat, j: nat)
    requires i <= j <= |s|
    requires forall k :: i <= k < j ==> IsWordOrDash(s[k])
    ensures RunStart(s, j) <= i
    decreases j
  {
    if j > i {
      RunStartIsLeftmost(s, i, j - 1);
    }
  }

  /** Any regex match uses the last `-` of the string: group 2 cannot hold a `-`. */
  lemma MatchUsesLastDash(s: string, i: int, d: int)
    requires RegexMatchAt(s, i, d)
    ensures d == LastIndexOf(s, '-')
  {
    var l := LastIndexOf(s, '-');
    assert l >= d;
  }

  /**
   * `SizeMatch` is the regex's leftmost match: when it answers `(i, d)` the
   * regex matches there and at no earlier start; when it answers `None` the
   * regex matches nowhere.
   */
  lemma SizeMatchIsRegex(s: string)
    ensures SizeMatch(s).Some? ==>
      var (i, d) := SizeMatch(s).value;
      RegexMatchAt(s, i, d) && forall i', d' :: RegexMatchAt(s, i', d') ==> i <= i' && d' == d
    ensures SizeMatch(s).None? ==> forall i, d :: !RegexMatchAt(s, i, d)
  {
    forall i', d' | RegexMatchAt(s, i', d')
      ensures SizeMatch(s).Some? && SizeMatch(s).value.0 <= i' && d' == SizeMatch(s).value.1
    {
      MatchUsesLastDash(s, i', d');
      RunStartIsLeftmost(s, i', d');
    }
  }

  /** `fullName` is the text before the first ':', or the whole name. */
  lemma FullNameBeforeColon(modelName: string)
    ensures var f := ParseModelInfo(modelName).fullName;
      ':' !in f && IsPrefix(f, modelName) && (f == modelName <==> ':' !in modelName)
  {
    var i := IndexOf(modelName, ':');
    if i != -1 {
      assert Split(modelName, ':')[0] == modelName[..i];
    }
  }

  /**
   * When `fullName` ends in '-' and one or more word characters, the size is
   * that run and the family is the run of word-or-dash characters before the
   * last '-'; otherwise the family is `fullName` and there is no size.
   */
  lemma ParseModelInfoSplitsSize(modelName: string)
    ensures var m := ParseModelInfo(modelName);
      var f := m.fullName;
      m.size.Some? ==>
        exists i, d :: RegexMatchAt(f, i, d) && m.family == f[i..d] && m.size.value == f[d + 1..] &&
          (forall i', d' :: RegexMatchAt(f, i', d') ==> i <= i' && d' == d)
    ensures var m := ParseModelInfo(modelName);
      m.size.None? ==> m.family == m.fullName && forall i, d :: !RegexMatchAt(m.fullName, i, d)
  {
    var f := Split(modelName, ':')[0];
    SizeMatchIsRegex(f);
    if SizeMatch(f).Some? {
      var (i, d) := SizeMatch(f).value;
      assert RegexMatchAt(f, i, d);
    }
  }

  // ---------------------------------------------------------------------------
  // Initials
  // ---------------------------------------------------------------------------

  /** `word.charAt(0).toUpperCase()` for each word, joined with ''. */
  function FirstLetters(words: seq<string>): (r: string)
    ensures |r| <= |words|
  {
    if words == [] then ""
    else (if words[0] == "" then "" else [UpperChar(words[0][0])]) + FirstLetters(words[1..])
  }

  /** `getModelInitials(family)`. */
  function Initials(family: string): string {
    FirstLetters(Split(family, '-'))
  }

  /** Words that are all non-empty contribute one letter each, in order. */
  lemma {:induction false} FirstLettersOfWords(words: seq<string>)
    requires forall k :: 0 <= k < |words| ==> words[k] != ""
    ensures |FirstLetters(words)| == |words|
    ensures forall k :: 0 <= k < |words| ==> FirstLetters(words)[k] == UpperChar(words[k][0])
  {
    if words != [] {
      FirstLettersOfWords(words[1..]);
    }
  }

  /** For a family made of non-empty dash-free words, the initials are their upper-cased first letters. */
  lemma InitialsOfJoin(words: seq<string>)
    requires |words| >= 1
    requires forall k :: 0 <= k < |words| ==> words[k] != "" && '-' !in words[k]
    ensures |Initials(Join(words, '-'))| == |words|
    ensures forall k :: 0 <= k < |words| ==> Initials(Join(words, '-'))[k] == UpperChar(words[k][0])
  {
    SplitJoin(words, '-');
    FirstLettersOfWords(words);
  }

  /** The letters of a list of segments are those of its parts, in order. */
  lemma {:induction false} FirstLettersDistributes(a: seq<string>, b: seq<string>)
    ensures FirstLetters(a + b) == FirstLetters(a) + FirstLetters(b)
  {
    if a != [] {
      assert (a + b)[0] == a[0] && (a + b)[1..] == a[1..] + b;
      FirstLettersDistributes(a[1..], b);
    } else {
      assert a + b == b;
    }
  }

  /** An empty segment (a leading, trailing or doubled '-') contributes nothing, wherever it is. */
  lemma InitialsSkipEmpty(a: seq<string>, b: seq<string>)
    ensures FirstLetters(a + [""] + b) == FirstLetters(a + b)
  {
    FirstLettersDistributes(a + [""], b);
    FirstLettersDistributes(a, [""]);
    FirstLettersDistributes(a, b);
    assert FirstLetters([""]) == "";
  }

  /** So a leading '-' adds no letter, and an empty family has no initials. */
  lemma InitialsLeadingDash()
    ensures Initials("-a") == "A"
    ensures Initials("") == ""
  {
    assert Split("-a", '-') == ["", "a"] by {
      assert IndexOf("-a", '-') == 0;
      assert IndexOf("a", '-') == -1;
    }
    assert IndexOf("", '-') == -1;
  }

  // ---------------------------------------------------------------------------
  // Lookup tables searched in key order
  // ---------------------------------------------------------------------------

  datatype Entry = Entry(key: string, value: string)

  /** `for (const key in table) if (s.includes(key)) return table[key]; return fallback`. */
  function FirstContained(table: seq<Entry>, s: string, fallback: string): (r: string)
    ensures r == fallback || exists j :: 0 <= j < |table| && r == table[j].value
  {
    if table == [] then fallback
    else if Contains(s, table[0].key) then table[0].value
    else FirstContained(table[1..], s, fallback)
  }

  /** The answer is the value of the first key contained in `s`, or the fallback when none is. */
  lemma {:induction false} FirstContainedIsFirst(table: seq<Entry>, s: string, fallback: string, j: nat)
    requires j < |table| && Contains(s, table[j].key)
    requires forall k :: 0 <= k < j ==> !Contains(s, table[k].key)
    ensures FirstContained(table, s, fallback) == table[j].value
  {
    if j > 0 {
      FirstContainedIsFirst(table[1..], s, fallback, j - 1);
    }
  }

  lemma {:induction false} FirstContainedNone(table: seq<Entry>, s: string, fallback: string)
    requires forall k :: 0 <= k < |table| ==> !Contains(s, table[k].key)
    ensures FirstContained(table, s, fallback) == fallback
  {
    if table != [] {
      FirstContainedNone(table[1..], s, fallback);
    }
  }

  /** The index of the first key contained in `s`, or `|table|` when none is. */
  function FirstHit(table: seq<Entry>, s: string): (j: nat)
    ensures j <= |table|
    ensures j < |table| ==> Contains(s, table[j].key)
    ensures forall k :: 0 <= k < j ==> !Contains(s, table[k].key)
  {
    if table == [] then 0
    else if Contains(s, table[0].key) then 0
    else 1 + FirstHit(table[1..], s)
  }

  lemma FirstContainedByHit(table: seq<Entry>, s: string, fallback: string)
    ensures var j := FirstHit(table, s);
      FirstContained(table, s, fallback) == if j < |table| then table[j].value else fallback
  {
    var j := FirstHit(table, s);
    if j < |table| {
      FirstContainedIsFirst(table, s, fallback, j);
    } else {
      FirstContainedNone(table, s, fallback);
    }
  }

  const ModelColors: seq<Entry> := [
    Entry("llama", "from-blue-500 to-blue-600"),
    Entry("mistral", "from-purple-500 to-purple-600"),
    Entry("gemma", "from-green-500 to-green-600"),
    Entry("phi", "from-yellow-500 to-yellow-600"),
    Entry("qwen", "from-red-500 to-red-600"),
    Entry("yi", "from-indigo-500 to-indigo-600"),
    Entry("codellama", "from-blue-600 to-blue-700")
  ]

  const GrayColor: string := "from-gray-500 to-gray-600"

  /** `getModelColor(family)`. */
  function ModelColor(family: string): string {
    FirstContained(ModelColors, Lower(family), GrayColor)
  }

  /** 'llama' precedes 'codellama', so every codellama family gets llama's colour. */
  lemma CodellamaGetsLlamaColor(family: string)
    requires Contains(Lower(family), "codellama")
    ensures ModelColor(family) == "from-blue-500 to-blue-600"
  {
    assert OccursAt("codellama", "llama", 4);
    ContainsAt("codellama", "llama", 4);
    ContainsTransitive(Lower(family), "codellama", "llama");
    FirstContainedIsFirst(ModelColors, Lower(family), GrayColor, 0);
  }

  /** Only the last entry carries the codellama colour; the fallback differs from it too. */
  lemma OnlyLastEntryHasCodellamaColor()
    ensures forall k :: 0 <= k < 6 ==> ModelColors[k].value != ModelColors[6].value
    ensures GrayColor != ModelColors[6].value
  {
    assert ModelColors[6].value[5] == 'b' && ModelColors[6].value[10] == '6';
    assert ModelColors[0].value[10] == '5';
    assert ModelColors[1].value[5] == 'p' && ModelColors[2].value[5] == 'g' && ModelColors[3].value[5] == 'y';
    assert ModelColors[4].value[5] == 'r' && ModelColors[5].value[5] == 'i' && GrayColor[5] == 'g';
  }

  /**
   * An entry whose key contains an earlier entry's key is shadowed: whenever
   * its key occurs in `s`, the earlier one does too and wins.
   */
  lemma ShadowedEntryNeverChosen(table: seq<Entry>, s: string, fallback: string, i: nat, j: nat)
    requires i < j < |table| && Contains(table[j].key, table[i].key)
    requires forall k :: 0 <= k < |table| && k != j ==> table[k].value != table[j].value
    requires fallback != table[j].value
    ensures FirstContained(table, s, fallback) != table[j].value
  {
    FirstContainedByHit(table, s, fallback);
    if FirstHit(table, s) == j {
      ContainsTransitive(s, table[j].key, table[i].key);
    }
  }

  /** The last table entry can never be chosen. */
  lemma CodellamaEntryUnreachable(family: string)
    ensures ModelColor(family) != "from-blue-600 to-blue-700"
  {
    assert OccursAt("codellama", "llama", 4);
    ContainsAt("codellama", "llama", 4);
    OnlyLastEntryHasCodellamaColor();
    ShadowedEntryNeverChosen(ModelColors, Lower(family), GrayColor, 0, 6);
  }

  const SizeClasses: seq<Entry> := [
    Entry("7b", "bg-green-100 text-green-800 dark:bg-green-900 dark:text-green-300"),
    Entry("13b", "bg-blue-100 text-blue-800 dark:bg-blue-900 dark:text-blue-300"),
    Entry("34b", "bg-purple-100 text-purple-800 dark:bg-purple-900 dark:text-purple-300"),
    Entry("70b", "bg-red-100 text-red-800 dark:bg-red-900 dark:text-red-300")
  ]

  const GraySize: string := "bg-gray-100 text-gray-800 dark:bg-gray-800 dark:text-gray-300"

  /** `getSizeClass(size)`: '' for a missing or empty size; the search is case-sensitive. */
  function SizeClass(size: Option<string>): (r: string)
    ensures size.None? || size.value == "" ==> r == ""
    ensures size.Some? && size.value != "" ==> r == FirstContained(SizeClasses, size.value, GraySize)
  {
    if size.None? || size.value == "" then "" else FirstContained(SizeClasses, size.value, GraySize)
  }

  /** A size containing none of the four keys gets the gray class; an upper-case "7B" is one such size. */
  lemma SizeClassFallback(size: string)
    requires size != ""
    requires forall k :: 0 <= k < |SizeClasses| ==> !Contains(size, SizeClasses[k].key)
    ensures SizeClass(Some(size)) == GraySize
  {
    FirstContainedNone(SizeClasses, size, GraySize);
  }

  // ---------------------------------------------------------------------------
  // Search filter
  // ---------------------------------------------------------------------------

  /** `models.filter(model => model.toLowerCase().includes(term.toLowerCase()))`. */
  function MatchingModels(models: seq<string>, term: string): (r: seq<string>)
    ensures |r| <= |models|
    ensures forall m :: m in r <==> m in models && Contains(Lower(m), Lower(term))
  {
    if models == [] then []
    else MatchingModels(models[..|models| - 1], term) +
         (if Contains(Lower(models[|models| - 1]), Lower(term)) then [models[|models| - 1]] else [])
  }

  /** The filter effect: a term that is blank after trim shows every model. */
  function FilteredModels(models: seq<string>, term: string): (r: seq<string>)
    ensures IsBlank(term) ==> r == models
    ensures !IsBlank(term) ==> r == MatchingModels(models, term)
  {
    if IsBlank(term) then models else MatchingModels(models, term)
  }

  /** Filtering a concatenation filters each part: the matching models keep their original order. */
  lemma {:induction false} MatchingDistributes(a: seq<string>, b: seq<string>, term: string)
    ensures MatchingModels(a + b, term) == MatchingModels(a, term) + MatchingModels(b, term)
  {
    if b != [] {
      var b' := b[..|b| - 1];
      MatchingDistributes(a, b', term);
      assert (a + b)[..|a + b| - 1] == a + b';
      assert (a + b)[|a + b| - 1] == b[|b| - 1];
    } else {
      assert a + b == a;
    }
  }
}
