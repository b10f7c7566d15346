/**
 * The one-pass scanner that finds the regular-expression literals of a line:
 * what a rule definition looks for, as opposed to what a program contains.
 */
module RegexLiteral {
  import opened Seqs
  import opened CommentSpan
  import opened RegexOpeners

  const MIN_JS_REGEX_BODY := 8

  predicate IsIdentifier(c: char) {
    'a' <= c <= 'z' || 'A' <= c <= 'Z' || '0' <= c <= '9' || c == '_' || c == '$'
  }

  predicate IsMeta(c: char) {
    c == '\\' || c == '^' || c == '$' || c == '.' || c == '*' || c == '+' || c == '?' || c == '(' ||
    c == ')' || c == '[' || c == ']' || c == '{' || c == '}' || c == '|'
  }

  predicate AllowedBeforeRegex(c: char) {
    c == '(' || c == ',' || c == '=' || c == ':' || c == '[' || c == '!' || c == '&' || c == '|' ||
    c == '?' || c == '{' || c == '}' || c == ';' || c == '+' || c == '-' || c == '*' || c == '%' ||
    c == '<' || c == '>' || c == '~' || c == '^'
  }

  predicate IsFlag(c: char) {
    c == 'd' || c == 'g' || c == 'i' || c == 'm' || c == 's' || c == 'u' || c == 'v' || c == 'y'
  }

  predicate StartsCall(c: char) {
    c == 'n' || c == 'r' || c == 'R'
  }

  predicate StartsProperty(c: char) {
    c == '\"' || c == '\'' || c == 'p' || c == 'P' || c == 'r' || c == 'R' || c == 'm' || c == 'M'
  }

  predicate EndsBareValue(c: char) {
    c == ',' || c == '{' || c == '}' || c == '[' || c == ']'
  }

  predicate CommentStartsAt(line: string, i: nat, language: Language)
    requires i < |line|
  {
    match language
    case Js => line[i] == '/' && i + 1 < |line| && line[i + 1] == '/'
    case Go => line[i] == '/' && i + 1 < |line| && line[i + 1] == '/'
    case Py => line[i] == '#'
    case Config => line[i] == '#'
    case Other => false
  }

  // ------------------------------------------------------------------ strings

  /** Whether the character at `k`, inside a literal whose text starts at `from`, is escaped. */
  predicate Escaped(line: string, from: nat, k: nat)
    requires from <= k <= |line|
    decreases k
  {
    k > from && line[k - 1] == '\\' && !Escaped(line, from, k - 1)
  }

  /** The quote at `k` ends the string whose text starts at `from`. */
  predicate EndsString(line: string, quote: char, from: nat, k: nat)
    requires from <= k < |line|
  {
    line[k] == quote && !Escaped(line, from, k)
  }

  /** `end` is just past the first quote that is not escaped, or the end of the line. */
  ghost predicate StringEndsAt(line: string, i: nat, end: nat)
    requires i < |line|
  {
    i < end <= |line| &&
    ((i + 1 < end && EndsString(line, line[i], i + 1, end - 1) && NoneEnds(line, line[i], i + 1, end - 1)) ||
     (end == |line| && NoneEnds(line, line[i], i + 1, end)))
  }

  ghost predicate NoneEnds(line: string, quote: char, from: nat, to: nat)
    requires from <= to <= |line|
  {
    forall k :: from <= k < to ==> !EndsString(line, quote, from, k)
  }

  function StringEndFrom(line: string, quote: char, j: nat): (r: nat)
    ensures r <= |line|
    ensures j < |line| ==> j < r
    decreases |line| - j
  {
    if j >= |line| then |line|
    else if line[j] == '\\' then StringEndFrom(line, quote, j + 2)
    else if line[j] == quote then j + 1
    else StringEndFrom(line, quote, j + 1)
  }

  function StringEnd(line: string, i: nat): (r: nat)
    requires i < |line|
    ensures i < r <= |line|
  {
    StringEndFrom(line, line[i], i + 1)
  }

  lemma {:induction false} StringEndFromIsFirst(line: string, i: nat, j: nat)
    requires i < j <= |line| && line[i] != '\\' && !Escaped(line, i + 1, j)
    requires NoneEnds(line, line[i], i + 1, j)
    ensures StringEndsAt(line, i, StringEndFrom(line, line[i], j))
    decreases |line| - j
  {
    if j == |line| {
    } else if line[j] == '\\' {
      assert Escaped(line, i + 1, j + 1);
      if j + 1 < |line| {
        assert !Escaped(line, i + 1, j + 2);
        StringEndFromIsFirst(line, i, j + 2);
      }
    } else if line[j] != line[i] {
      StringEndFromIsFirst(line, i, j + 1);
    }
  }

  /** A string is read up to its first closing quote that no backslash escapes. */
  lemma StringEndIsFirst(line: string, i: nat)
    requires i < |line| && IsQuote(line[i])
    ensures StringEndsAt(line, i, StringEnd(line, i))
  {
    StringEndFromIsFirst(line, i, i + 1);
  }

  method ReadString(line: string, i: nat) returns (end: nat, ghost walked: nat)
    requires i < |line|
    ensures end == StringEnd(line, i)
    ensures walked <= end - i
  {
    var quote := line[i];
    var j := i + 1;
    walked := 0;
    while j < |line|
      invariant i < j <= |line| + 1
      invariant StringEnd(line, i) == StringEndFrom(line, quote, j)
      invariant walked + i < j && (j > |line| ==> walked + i < |line|)
      decreases |line| - j
    {
      walked := walked + 1;
      if line[j] == '\\' {
        j := j + 2;
        continue;
      }
      if line[j] == quote {
        return j + 1, walked;
      }
      j := j + 1;
    }
    end := |line|;
  }

  // ------------------------------------------------------------------ JavaScript literals

  /** Whether the character at `k` is in a character class `[...]` of the literal from `from`. */
  predicate InClass(line: string, from: nat, k: nat)
    requires from <= k <= |line|
    decreases k
  {
    k > from &&
    if Escaped(line, from, k - 1) then InClass(line, from, k - 1)
    else if line[k - 1] == '[' then true
    else if line[k - 1] == ']' then false
    else InClass(line, from, k - 1)
  }

  /** The slash at `k` ends the regular expression whose body starts at `from`. */
  predicate EndsRegex(line: string, from: nat, k: nat)
    requires from <= k < |line|
  {
    line[k] == '/' && !Escaped(line, from, k) && !InClass(line, from, k)
  }

  /** `end` is just past the first closing slash and its flags; -1 when none closes. */
  ghost predicate RegexEndsAt(line: string, i: nat, end: int)
    requires i < |line|
  {
    if end == -1 then
      NoneCloses(line, i + 1, |line|)
    else
      i + 1 < end <= |line| && exists close :: IsFirstClose(line, i, close) && IsFlagRun(line, close, end)
  }

  ghost predicate IsFirstClose(line: string, i: nat, close: int)
    requires i < |line|
  {
    i + 1 <= close < |line| && EndsRegex(line, i + 1, close) && NoneCloses(line, i + 1, close)
  }

  ghost predicate IsFlagRun(line: string, close: int, end: int) {
    0 <= close < end <= |line| &&
    (forall k :: close < k < end ==> IsFlag(line[k])) &&
    (end < |line| ==> !IsFlag(line[end]))
  }

  function FlagsEnd(line: string, k: nat): (r: nat)
    requires k <= |line|
    ensures k <= r <= |line|
    ensures forall j :: k <= j < r ==> IsFlag(line[j])
    ensures r < |line| ==> !IsFlag(line[r])
    decreases |line| - k
  {
    if k < |line| && IsFlag(line[k]) then FlagsEnd(line, k + 1) else k
  }

  function RegexEndFrom(line: string, j: nat, inClass: bool): (r: int)
    ensures r == -1 || j < r <= |line|
    decreases |line| - j
  {
    if j >= |line| then -1
    else if line[j] == '\\' then RegexEndFrom(line, j + 2, inClass)
    else if line[j] == '[' then RegexEndFrom(line, j + 1, true)
    else if line[j] == ']' then RegexEndFrom(line, j + 1, false)
    else if line[j] == '/' && !inClass then FlagsEnd(line, j + 1)
    else RegexEndFrom(line, j + 1, inClass)
  }

  function RegexEnd(line: string, i: nat): (r: int)
    ensures r == -1 || i + 1 < r <= |line|
  {
    RegexEndFrom(line, i + 1, false)
  }

  ghost predicate NoneCloses(line: string, from: nat, to: nat)
    requires from <= to <= |line|
  {
    forall k :: from <= k < to ==> !EndsRegex(line, from, k)
  }

  lemma {:induction false} RegexEndFromIsFirst(line: string, i: nat, j: nat)
    requires i < j <= |line| && !Escaped(line, i + 1, j) && NoneCloses(line, i + 1, j)
    ensures RegexEndsAt(line, i, RegexEndFrom(line, j, InClass(line, i + 1, j)))
    decreases |line| - j
  {
    var inClass := InClass(line, i + 1, j);
    if j == |line| {
    } else if line[j] == '\\' {
      assert Escaped(line, i + 1, j + 1);
      if j + 1 < |line| {
        assert InClass(line, i + 1, j + 1) == inClass;
        assert InClass(line, i + 1, j + 2) == inClass;
        RegexEndFromIsFirst(line, i, j + 2);
      } else {
        assert NoneCloses(line, i + 1, j + 1);
      }
    } else if line[j] == '/' && !inClass {
      assert IsFirstClose(line, i, j) && IsFlagRun(line, j, FlagsEnd(line, j + 1));
    } else {
      assert !Escaped(line, i + 1, j + 1);
      RegexEndFromIsFirst(line, i, j + 1);
    }
  }

  /** A literal ends at its first slash that is neither escaped nor in a class, flags included. */
  lemma RegexEndIsFirst(line: string, i: nat)
    requires i < |line|
    ensures RegexEndsAt(line, i, RegexEnd(line, i))
  {
    RegexEndFromIsFirst(line, i, i + 1);
  }

  method ReadJsRegexLiteral(line: string, i: nat) returns (end: int, ghost walked: nat)
    requires i < |line|
    ensures end == RegexEnd(line, i)
    ensures walked <= (if end == -1 then |line| else end) - i
  {
    var j := i + 1;
    var inClass := false;
    walked := 0;
    while j < |line|
      invariant i < j <= |line| + 1
      invariant RegexEnd(line, i) == RegexEndFrom(line, j, inClass)
      invariant walked + i < j && (j > |line| ==> walked + i < |line|)
      decreases |line| - j
    {
      walked := walked + 1;
      if line[j] == '\\' {
        j := j + 2;
        continue;
      }
      if line[j] == '[' {
        inClass := true;
      } else if line[j] == ']' {
        inClass := false;
      } else if line[j] == '/' && !inClass {
        var k := j + 1;
        while k < |line| && IsFlag(line[k])
          invariant j < k <= |line| && FlagsEnd(line, j + 1) == FlagsEnd(line, k)
          invariant walked + i <= k
        {
          walked := walked + 1;
          k := k + 1;
        }
        return k, walked;
      }
      j := j + 1;
    }
    end := -1;
  }

  /** Remembers that one read has already run to the end of the line. */
  class ScanState {
    var jsRegexExhausted: bool

    constructor ()
      ensures !jsRegexExhausted
    {
      jsRegexExhausted := false;
    }
  }

  /** The end of the literal, and whether reads are exhausted from here on. */
  function RegexEndOnce(line: string, i: nat, exhausted: bool): (int, bool) {
    if exhausted then (-1, true) else (RegexEnd(line, i), RegexEnd(line, i) == -1)
  }

  /** What one call may walk: the characters it consumes, or the line once when it fails. */
  predicate Paid(line: string, start: nat, next: int, wasExhausted: bool, exhausted: bool, walked: nat) {
    (wasExhausted ==> exhausted) &&
    walked <= (next - start) + (if exhausted && !wasExhausted then |line| else 0)
  }

  /** Over a run only one read fails, so the line is paid for once. */
  lemma PaidAdds(line: string, a: nat, b: nat, c: nat, was: bool, now: bool, w: nat, w': nat)
    requires Paid(line, a, b, false, was, w) && Paid(line, b, c, was, now, w')
    ensures Paid(line, a, c, false, now, w + w')
  {
  }

  method ReadJsRegexOnce(line: string, i: nat, state: ScanState) returns (end: int, ghost walked: nat)
    requires i < |line|
    modifies state
    ensures (end, state.jsRegexExhausted) == RegexEndOnce(line, i, old(state.jsRegexExhausted))
    ensures Paid(line, i, if end == -1 then i else end, old(state.jsRegexExhausted), state.jsRegexExhausted, walked)
  {
    if state.jsRegexExhausted {
      return -1, 0;
    }
    end, walked := ReadJsRegexLiteral(line, i);
    if end < 0 {
      state.jsRegexExhausted := true;
    }
  }

  predicate QualifiesAsRegexBody(body: string) {
    |body| >= MIN_JS_REGEX_BODY && exists k :: 0 <= k < |body| && IsMeta(body[k])
  }

  /** The last slash at or before `k`; the opening slash at `i` is one. */
  function LastSlash(line: string, i: nat, k: nat): (r: nat)
    requires i <= k < |line| && line[i] == '/'
    ensures i <= r <= k && line[r] == '/'
    ensures forall j :: r < j <= k ==> line[j] != '/'
    decreases k
  {
    if line[k] == '/' then k else LastSlash(line, i, k - 1)
  }

  // ------------------------------------------------------------------ one argument

  predicate IsPrefixLetter(c: char) {
    c == 'r' || c == 'R' || c == 'b' || c == 'B' || c == 'u' || c == 'U' || c == 'f' || c == 'F'
  }

  /** The quote of a Python string that starts at `i`, after at most two prefix letters; -1 if none. */
  function PythonStringStart(line: string, i: nat): (r: int)
    ensures r == -1 || (i <= r <= i + 2 && r < |line| && IsQuote(line[r]))
    ensures r >= 0 ==> forall k :: i <= k < r ==> IsPrefixLetter(line[k])
  {
    var j := if i < |line| && IsPrefixLetter(line[i]) then
        if i + 1 < |line| && IsPrefixLetter(line[i + 1]) then i + 2 else i + 1
      else i;
    if j < |line| && (line[j] == '\"' || line[j] == '\'') then j else -1
  }

  /** The literal that starts at `i`, after an opener, and whether reads are now exhausted. */
  function Literal(line: string, i: nat, language: Language, allowBare: bool, exhausted: bool): (r: (Option<Span>, bool))
    ensures r.0.Some? ==> r.0.value.start == i < r.0.value.end <= |line|
  {
    if i >= |line| then (None, exhausted)
    else if IsQuote(line[i]) then (Some(Span(i, StringEnd(line, i))), exhausted)
    else if language == Py && PythonStringStart(line, i) >= 0 then
      (Some(Span(i, StringEnd(line, PythonStringStart(line, i)))), exhausted)
    else if line[i] == '/' && language == Js then
      var read := RegexEndOnce(line, i, exhausted);
      (if read.0 > 0 then Some(Span(i, read.0)) else None, read.1)
    else if allowBare && !IsRegexSpace(line[i]) && !EndsBareValue(line[i]) then (Some(Span(i, |line|)), exhausted)
    else (None, exhausted)
  }

  method LiteralAt(line: string, i: nat, language: Language, allowBare: bool, state: ScanState)
    returns (span: Option<Span>, ghost walked: nat)
    requires i <= |line|
    modifies state
    ensures (span, state.jsRegexExhausted) == Literal(line, i, language, allowBare, old(state.jsRegexExhausted))
    ensures Paid(line, i, if span.Some? then span.value.end else i,
                 old(state.jsRegexExhausted), state.jsRegexExhausted, walked)
  {
    walked := 0;
    if i == |line| {
      return None, 0;
    }
    if IsQuote(line[i]) {
      var end;
      end, walked := ReadString(line, i);
      return Some(Span(i, end)), walked;
    }
    if language == Py {
      var quoteAt := PythonStringStart(line, i);
      if quoteAt >= 0 {
        var end;
        end, walked := ReadString(line, quoteAt);
        return Some(Span(i, end)), walked;
      }
    }
    if line[i] == '/' && language == Js {
      var end;
      end, walked := ReadJsRegexOnce(line, i, state);
      return if end > 0 then Some(Span(i, end)) else None, walked;
    }
    if allowBare && !IsRegexSpace(line[i]) && !EndsBareValue(line[i]) {
      return Some(Span(i, |line|)), 0;
    }
    span := None;
  }

  // ------------------------------------------------------------------ the scan

  predicate AtTokenStart(line: string, i: nat)
    requires i < |line|
  {
    (i == 0 || !IsIdentifier(line[i - 1])) && (IsIdentifier(line[i]) || line[i] == '\"' || line[i] == '\'')
  }

  /** Where the argument of an opener at `i` starts, or -1, and whether it may be unquoted. */
  function Opener(line: string, i: nat, language: Language, openers: Openers): (int, bool)
    requires i < |line|
  {
    var called := if StartsCall(line[i]) then openers.call(line, i) else -1;
    if called >= 0 then (called, false)
    else
      var property := if StartsProperty(line[i]) then openers.property(line, i) else -1;
      (property, property >= 0 && language == Config)
  }

  function IdentifierEnd(line: string, j: nat): (r: nat)
    requires j <= |line|
    ensures j <= r <= |line|
    decreases |line| - j
  {
    if j < |line| && IsIdentifier(line[j]) then IdentifierEnd(line, j + 1) else j
  }

  /** One turn of the scan: where it goes on, the last character that mattered, the literal found. */
  datatype Turn = Stop | Turn(next: nat, last: Option<char>, exhausted: bool, span: Option<Span>)

  predicate RegexMayStart(line: string, i: nat, language: Language, last: Option<char>)
    requires i < |line|
  {
    line[i] == '/' && language == Js && (last.None? || AllowedBeforeRegex(last.value))
  }

  function TurnAtOpener(
    line: string, start: nat, bare: bool, language: Language, last: Option<char>, exhausted: bool): Turn
  {
    var found := Literal(line, start, language, bare, exhausted);
    if found.0.Some? then Turn(found.0.value.end, Some(line[found.0.value.end - 1]), found.1, found.0)
    else Turn(start, last, found.1, None)
  }

  function TurnAtToken(line: string, i: nat, language: Language, last: Option<char>, exhausted: bool): Turn
    requires i < |line|
  {
    if IsIdentifier(line[i]) then
      var j := IdentifierEnd(line, i + 1);
      Turn(j, Some(line[j - 1]), exhausted, None)
    else if IsQuote(line[i]) then Turn(StringEnd(line, i), Some(line[i]), exhausted, None)
    else if RegexMayStart(line, i, language, last) then
      var read := RegexEndOnce(line, i, exhausted);
      if read.0 > 0 then Turn(read.0, Some('/'), read.1, RegexSpan(line, i, read.0))
      else Turn(i + 1, Some(line[i]), read.1, None)
    else Turn(i + 1, Some(line[i]), exhausted, None)
  }

  function RegexSpan(line: string, i: nat, end: nat): Option<Span>
    requires i < end <= |line| && line[i] == '/'
  {
    var closing := LastSlash(line, i, end - 1);
    if closing > i && QualifiesAsRegexBody(line[i + 1..closing]) then Some(Span(i, end)) else None
  }

  /** Openers are only tried at the start of a token. */
  function Opening(line: string, i: nat, language: Language, openers: Openers): (int, bool)
    requires i < |line|
  {
    if AtTokenStart(line, i) then Opener(line, i, language, openers) else (-1, false)
  }

  function TurnAt(
    line: string, i: nat, language: Language, openers: Openers, last: Option<char>, exhausted: bool): Turn
    requires i < |line|
  {
    if IsWhitespace(line[i]) then Turn(i + 1, last, exhausted, None)
    else if CommentStartsAt(line, i, language) then Stop
    else
      var opener := Opening(line, i, language, openers);
      if opener.0 >= 0 then TurnAtOpener(line, opener.0, opener.1, language, last, exhausted)
      else TurnAtToken(line, i, language, last, exhausted)
  }

  predicate SpanEndsAt(span: Option<Span>, from: nat, end: nat) {
    span.Some? ==> from <= span.value.start < span.value.end == end
  }

  predicate TurnSpans(turn: Turn, i: nat, n: nat) {
    turn.Turn? ==> (i < turn.next <= n && SpanEndsAt(turn.span, i, turn.next))
  }

  lemma TokenAdvances(line: string, i: nat, language: Language, last: Option<char>, exhausted: bool)
    requires i < |line|
    ensures TurnSpans(TurnAtToken(line, i, language, last, exhausted), i, |line|)
  {
  }

  /** A turn moves on, and its literal lies in what it moved over. */
  lemma TurnAdvances(
    line: string, i: nat, language: Language, openers: Openers, last: Option<char>, exhausted: bool)
    requires i < |line| && Anchored(openers, line)
    ensures TurnSpans(TurnAt(line, i, language, openers, last, exhausted), i, |line|)
  {
    OpenerAdvances(line, i, language, openers);
    if !IsWhitespace(line[i]) && !CommentStartsAt(line, i, language) &&
       Opening(line, i, language, openers).0 < 0 {
      TokenAdvances(line, i, language, last, exhausted);
    }
  }

  lemma OpenerAdvances(line: string, i: nat, language: Language, openers: Openers)
    requires i < |line| && Anchored(openers, line)
    ensures Advances(line, i, Opening(line, i, language, openers).0)
  {
    assert Advances(line, i, openers.call(line, i)) && Advances(line, i, openers.property(line, i));
  }

  function ScanFrom(
    line: string, language: Language, openers: Openers, i: nat, last: Option<char>, exhausted: bool): seq<Span>
    decreases |line| - i
  {
    if i >= |line| then []
    else
      var turn := TurnAt(line, i, language, openers, last, exhausted);
      if turn.Stop? || turn.next <= i then []
      else
        var rest := ScanFrom(line, language, openers, turn.next, turn.last, turn.exhausted);
        if turn.span.Some? then [turn.span.value] + rest else rest
  }

  function Spans(line: string, language: Language): seq<Span> {
    ScanFrom(line, language, OpenersOf(language), 0, None, false)
  }

  lemma {:induction false} ScanIsTidy(
    line: string, language: Language, openers: Openers, i: nat, last: Option<char>, exhausted: bool)
    requires Anchored(openers, line)
    ensures Tidy(ScanFrom(line, language, openers, i, last, exhausted), i, |line|)
    decreases |line| - i
  {
    TidyNothing(i, |line|);
    if i < |line| {
      TurnAdvances(line, i, language, openers, last, exhausted);
      var turn := TurnAt(line, i, language, openers, last, exhausted);
      hide TurnAt, Anchored, Tidy;
      if turn.Turn? {
        ScanIsTidy(line, language, openers, turn.next, turn.last, turn.exhausted);
        TidyBehind(turn, ScanFrom(line, language, openers, turn.next, turn.last, turn.exhausted), i, |line|);
      }
    }
  }

  lemma TidyNothing(i: nat, n: nat)
    ensures Tidy([], i, n)
  {
  }

  /** What a turn finds comes before what is found after it. */
  lemma TidyBehind(turn: Turn, rest: seq<Span>, i: nat, n: nat)
    requires turn.Turn? && TurnSpans(turn, i, n) && Tidy(rest, turn.next, n)
    ensures Tidy(if turn.span.Some? then [turn.span.value] + rest else rest, i, n)
  {
  }

  /** An opener ended at `start`: its literal, or on from there. */
  method ReadArgument(
    line: string, start: nat, bare: bool, language: Language, last: Option<char>, state: ScanState)
    returns (turn: Turn, ghost walked: nat)
    requires start <= |line|
    modifies state
    ensures turn == TurnAtOpener(line, start, bare, language, last, old(state.jsRegexExhausted))
    ensures turn.Turn? && state.jsRegexExhausted == turn.exhausted
    ensures Paid(line, start, turn.next, old(state.jsRegexExhausted), state.jsRegexExhausted, walked)
  {
    var span;
    span, walked := LiteralAt(line, start, language, bare, state);
    if span.Some? {
      var end := span.value.end;
      turn := Turn(end, Some(line[end - 1]), state.jsRegexExhausted, span);
    } else {
      turn := Turn(start, last, state.jsRegexExhausted, None);
    }
  }

  /** No opener at `i`: an identifier, a string, a regular expression, or one character. */
  method ReadToken(line: string, i: nat, language: Language, last: Option<char>, state: ScanState)
    returns (turn: Turn, ghost walked: nat)
    requires i < |line|
    modifies state
    ensures turn == TurnAtToken(line, i, language, last, old(state.jsRegexExhausted))
    ensures turn.Turn? && state.jsRegexExhausted == turn.exhausted
    ensures Paid(line, i, turn.next, old(state.jsRegexExhausted), state.jsRegexExhausted, walked)
  {
    walked := 0;
    if IsIdentifier(line[i]) {
      var j := i + 1;
      while j < |line| && IsIdentifier(line[j])
        invariant i < j <= |line| && IdentifierEnd(line, i + 1) == IdentifierEnd(line, j)
      {
        j := j + 1;
      }
      return Turn(j, Some(line[j - 1]), state.jsRegexExhausted, None), 0;
    }
    if IsQuote(line[i]) {
      var end;
      end, walked := ReadString(line, i);
      return Turn(end, Some(line[i]), state.jsRegexExhausted, None), walked;
    }
    if RegexMayStart(line, i, language, last) {
      var end;
      end, walked := ReadJsRegexOnce(line, i, state);
      if end > 0 {
        var closing := LastSlash(line, i, end - 1);
        var span := if closing > i && QualifiesAsRegexBody(line[i + 1..closing]) then Some(Span(i, end)) else None;
        return Turn(end, Some('/'), state.jsRegexExhausted, span), walked;
      }
    }
    turn := Turn(i + 1, Some(line[i]), state.jsRegexExhausted, None);
  }

  /**
   * Finds the literals in one pass. However many reads are tried, the characters
   * walked inside strings and regular expressions are at most twice the line.
   */
  method FindRegexLiteralSpans(line: string, language: Language) returns (spans: seq<Span>, ghost walked: nat)
    ensures spans == Spans(line, language)
    ensures Tidy(spans, 0, |line|)
    ensures walked <= 2 * |line|
  {
    var openers := OpenersOf(language);
    OpenersAreAnchored(language, line);
    assert Spans(line, language) == ScanFrom(line, language, openers, 0, None, false);
    hide OpenersOf, Anchored;
    ScanIsTidy(line, language, openers, 0, None, false);
    spans, walked := [], 0;
    var state := new ScanState();
    var last: Option<char> := None;
    var i := 0;
    ghost var all := Spans(line, language);
    hide TurnAt, Spans, Paid, ScanFrom, Underway;
    PaidNothing(line);
    UnderwayAtStart(all);
    while i < |line|
      invariant i <= |line| && fresh(state)
      invariant Underway(all, spans, ScanFrom(line, language, openers, i, last, state.jsRegexExhausted))
      invariant Paid(line, 0, i, false, state.jsRegexExhausted, walked)
      decreases |line| - i
    {
      ghost var exhausted := state.jsRegexExhausted;
      var turn;
      ghost var walkedHere;
      turn, walkedHere := TakeTurn(line, i, language, openers, last, state);
      ScanTakesTurn(line, language, openers, i, last, exhausted, turn, all, spans);
      if turn.Stop? {
        break;
      }
      PaidAdds(line, 0, i, turn.next, exhausted, turn.exhausted, walked, walkedHere);
      walked := walked + walkedHere;
      if turn.span.Some? {
        spans := spans + [turn.span.value];
      }
      i, last := turn.next, turn.last;
    }
    if i == |line| {
      ScanEnds(line, language, openers, last, state.jsRegexExhausted, all, spans);
    }
    PaidAtMostTwice(line, i, state.jsRegexExhausted, walked);
  }

  /** Of all the spans, `spans` are found and `rest` are to come. */
  ghost predicate Underway(all: seq<Span>, spans: seq<Span>, rest: seq<Span>) {
    all == spans + rest
  }

  lemma UnderwayAtStart(all: seq<Span>)
    ensures Underway(all, [], all)
  {
  }

  lemma ScanTakesTurn(
    line: string, language: Language, openers: Openers, i: nat, last: Option<char>, exhausted: bool, turn: Turn,
    all: seq<Span>, spans: seq<Span>)
    requires i < |line| && turn == TurnAt(line, i, language, openers, last, exhausted)
    requires Underway(all, spans, ScanFrom(line, language, openers, i, last, exhausted))
    ensures turn.Stop? ==> all == spans
    ensures turn.Turn? && i < turn.next ==>
              Underway(all, if turn.span.Some? then spans + [turn.span.value] else spans,
                       ScanFrom(line, language, openers, turn.next, turn.last, turn.exhausted))
  {
    hide TurnAt;
  }

  lemma ScanEnds(
    line: string, language: Language, openers: Openers, last: Option<char>, exhausted: bool, all: seq<Span>,
    spans: seq<Span>)
    requires Underway(all, spans, ScanFrom(line, language, openers, |line|, last, exhausted))
    ensures all == spans
  {
  }

  lemma PaidNothing(line: string)
    ensures Paid(line, 0, 0, false, false, 0)
  {
  }

  lemma PaidAtMostTwice(line: string, i: nat, exhausted: bool, walked: nat)
    requires i <= |line| && Paid(line, 0, i, false, exhausted, walked)
    ensures walked <= 2 * |line|
  {
  }

  method TakeTurn(
    line: string, i: nat, language: Language, openers: Openers, last: Option<char>, state: ScanState)
    returns (turn: Turn, ghost walked: nat)
    requires i < |line| && Anchored(openers, line)
    modifies state
    ensures turn == TurnAt(line, i, language, openers, last, old(state.jsRegexExhausted))
    ensures turn.Stop? ==> state.jsRegexExhausted == old(state.jsRegexExhausted)
    ensures turn.Turn? ==> state.jsRegexExhausted == turn.exhausted && i < turn.next <= |line|
    ensures turn.Turn? ==>
              Paid(line, i, turn.next, old(state.jsRegexExhausted), state.jsRegexExhausted, walked)
  {
    TurnAdvances(line, i, language, openers, last, state.jsRegexExhausted);
    if IsWhitespace(line[i]) {
      return Turn(i + 1, last, state.jsRegexExhausted, None), 0;
    }
    if CommentStartsAt(line, i, language) {
      return Stop, 0;
    }
    var argStart, allowBare := -1, false;
    if AtTokenStart(line, i) {
      OpenerAdvances(line, i, language, openers);
      argStart, allowBare := FindOpener(line, i, language, openers);
    }
    if argStart >= 0 {
      turn, walked := ReadArgument(line, argStart, allowBare, language, last, state);
    } else {
      turn, walked := ReadToken(line, i, language, last, state);
    }
  }

  method FindOpener(line: string, i: nat, language: Language, openers: Openers)
    returns (argStart: int, allowBare: bool)
    requires i < |line|
    ensures (argStart, allowBare) == Opener(line, i, language, openers)
  {
    argStart, allowBare := -1, false;
    if StartsCall(line[i]) {
      argStart := openers.call(line, i);
    }
    if argStart < 0 {
      argStart := -1;
      if StartsProperty(line[i]) {
        argStart := openers.property(line, i);
        allowBare := argStart >= 0 && language == Config;
      }
    }
  }

  predicate Within(spans: seq<Span>, start: nat, end: nat) {
    exists k :: 0 <= k < |spans| && spans[k].start <= start && end <= spans[k].end
  }

  /** Whether a match lies wholly in one of the literals. */
  method IsInsideRegexLiteral(line: string, matchStart: nat, matchLength: nat, language: Language)
    returns (inside: bool)
    ensures inside <==> Within(Spans(line, language), matchStart, matchStart + matchLength)
  {
    var spans, _ := FindRegexLiteralSpans(line, language);
    inside := Within(spans, matchStart, matchStart + matchLength);
  }
}
