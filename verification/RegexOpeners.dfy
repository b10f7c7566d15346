/** What announces a regular expression on a line: the sticky probes of src/queue/rules/regex-literal.ts. */
module RegexOpeners {
  import opened Seqs
  import opened CommentSpan

  datatype Language = Js | Py | Go | Config | Other

  /**
   * The probes anchored at a column: a call such as `new RegExp(` of the language,
   * and a property such as `pattern:`. Each gives the column after the match, or -1.
   */
  datatype Openers = Openers(call: (string, nat) -> int, property: (string, nat) -> int)

  predicate Advances(line: string, i: nat, end: int) {
    end == -1 || i < end <= |line|
  }

  /** A match is never empty and never leaves the line. */
  ghost predicate Anchored(openers: Openers, line: string) {
    forall i: nat :: i < |line| ==> Advances(line, i, openers.call(line, i)) && Advances(line, i, openers.property(line, i))
  }

  /** White space as a regular expression's `\s` has it. */
  predicate IsRegexSpace(c: char) {
    var n := c as int;
    IsWhitespace(c) || 0x2000 <= n <= 0x200A || n == 0xA0 || n == 0x1680 || n == 0x2028 || n == 0x2029 ||
    n == 0x202F || n == 0x205F || n == 0x3000 || n == 0xFEFF
  }

  /** The column after a run of white space. */
  function SkipSpaces(line: string, i: nat): (r: nat)
    requires i <= |line|
    ensures i <= r <= |line|
    ensures forall k :: i <= k < r ==> IsRegexSpace(line[k])
    ensures r < |line| ==> !IsRegexSpace(line[r])
    decreases |line| - i
  {
    if i < |line| && IsRegexSpace(line[i]) then SkipSpaces(line, i + 1) else i
  }

  /** `c` between optional white space, from `i`. */
  function Around(line: string, i: nat, c: char): (r: int)
    ensures Advances(line, i, r)
  {
    if i > |line| then -1
    else
      var j := SkipSpaces(line, i);
      if j < |line| && line[j] == c then SkipSpaces(line, j + 1) else -1
  }

  /** The first of the words at `i` after which `after` matches. */
  function AnyWord(line: string, i: nat, words: seq<string>, after: (string, nat) -> int): int {
    if words == [] then -1
    else if StartsAt(line, i, words[0]) && after(line, i + |words[0]|) >= 0 then after(line, i + |words[0]|)
    else AnyWord(line, i, words[1..], after)
  }

  function OpenParen(line: string, i: nat): (r: int)
    ensures Advances(line, i, r)
  {
    Around(line, i, '(')
  }

  /** `new RegExp(`, with white space. */
  function JsCall(line: string, i: nat): int {
    if StartsAt(line, i, "new") then
      var j := SkipSpaces(line, i + 3);
      if j > i + 3 && StartsAt(line, j, "RegExp") then OpenParen(line, j + 6) else -1
    else -1
  }

  const PY_FUNCTIONS := ["compile", "search", "match", "fullmatch", "findall", "finditer", "sub", "split"]

  /** `re.compile(` and its like. */
  function PyCall(line: string, i: nat): int {
    if StartsAt(line, i, "re.") then AnyWord(line, i + 3, PY_FUNCTIONS, OpenParen) else -1
  }

  function MaybePosix(line: string, i: nat): (r: int)
    ensures Advances(line, i, r)
  {
    if StartsAt(line, i, "POSIX") && OpenParen(line, i + 5) >= 0 then OpenParen(line, i + 5) else OpenParen(line, i)
  }

  /** `regexp.MustCompile(` and its like. */
  function GoCall(line: string, i: nat): int {
    if StartsAt(line, i, "regexp.") then AnyWord(line, i + 7, ["MustCompile", "Compile"], MaybePosix) else -1
  }

  function ToLower(c: char): char {
    if 'A' <= c <= 'Z' then (c as int + 32) as char else c
  }

  /** The word at `i`, in whatever case its letters are. */
  predicate StartsFolded(line: string, i: nat, word: string) {
    i + |word| <= |line| && forall k :: 0 <= k < |word| ==> ToLower(line[i + k]) == word[k]
  }

  predicate IsPlainQuote(line: string, i: nat) {
    i < |line| && (line[i] == '\"' || line[i] == '\'')
  }

  /** The end of the name, perhaps a quote, and a colon. */
  function AfterName(line: string, i: nat): (r: int)
    ensures Advances(line, i, r)
  {
    if IsPlainQuote(line, i) && Around(line, i + 1, ':') >= 0 then Around(line, i + 1, ':') else Around(line, i, ':')
  }

  function AnyName(line: string, i: nat, names: seq<string>): int {
    if names == [] then -1
    else if StartsFolded(line, i, names[0]) && AfterName(line, i + |names[0]|) >= 0 then AfterName(line, i + |names[0]|)
    else AnyName(line, i, names[1..])
  }

  const PROPERTY_NAMES := ["pattern", "regex", "regexp", "matcher"]

  /** `pattern:` and its like, the name perhaps in quotes. */
  function Property(line: string, i: nat): int {
    if IsPlainQuote(line, i) && AnyName(line, i + 1, PROPERTY_NAMES) >= 0 then AnyName(line, i + 1, PROPERTY_NAMES)
    else AnyName(line, i, PROPERTY_NAMES)
  }

  function NoCall(line: string, i: nat): int {
    -1
  }

  function OpenersOf(language: Language): Openers {
    match language
    case Js => Openers(JsCall, Property)
    case Py => Openers(PyCall, Property)
    case Go => Openers(GoCall, Property)
    case _ => Openers(NoCall, Property)
  }

  lemma {:induction false} AnyWordAdvances(line: string, i: nat, words: seq<string>, after: (string, nat) -> int)
    requires forall j: nat :: Advances(line, j, after(line, j))
    ensures Advances(line, i, AnyWord(line, i, words, after))
  {
    if words != [] {
      AnyWordAdvances(line, i, words[1..], after);
      assert Advances(line, i + |words[0]|, after(line, i + |words[0]|));
    }
  }

  lemma {:induction false} AnyNameAdvances(line: string, i: nat, names: seq<string>)
    ensures Advances(line, i, AnyName(line, i, names))
  {
    if names != [] {
      AnyNameAdvances(line, i, names[1..]);
    }
  }

  /** No probe matches the empty text, so the scan always moves on. */
  lemma OpenersAreAnchored(language: Language, line: string)
    ensures Anchored(OpenersOf(language), line)
  {
    forall i: nat | i < |line|
      ensures Advances(line, i, OpenersOf(language).call(line, i))
      ensures Advances(line, i, OpenersOf(language).property(line, i))
    {
      CallAdvances(language, line, i);
      PropertyAdvances(line, i);
    }
  }

  lemma CallAdvances(language: Language, line: string, i: nat)
    ensures Advances(line, i, OpenersOf(language).call(line, i))
  {
    AnyWordAdvances(line, i + 3, PY_FUNCTIONS, OpenParen);
    AnyWordAdvances(line, i + 7, ["MustCompile", "Compile"], MaybePosix);
  }

  lemma PropertyAdvances(line: string, i: nat)
    ensures Advances(line, i, Property(line, i))
  {
    AnyNameAdvances(line, i, PROPERTY_NAMES);
    AnyNameAdvances(line, i + 1, PROPERTY_NAMES);
  }
}
