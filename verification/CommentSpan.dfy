/**
 * Which columns of a source line lie in a comment. The scanner jumps from one
 * quote or comment to the next; the lexer beside it reads one character at a time.
 */
module CommentSpan {
  import opened Seqs

  datatype Hash = Anywhere | AfterSpace | NoHash

  datatype CommentSyntax = CommentSyntax(
    line: seq<string>,
    block: seq<(string, string)>,
    hash: Hash,
    docstring: bool,
    quotes: bool)

  const SLASH := CommentSyntax(["//"], [("/*", "*/")], NoHash, false, true)
  const HASH_ANYWHERE := CommentSyntax([], [], Anywhere, false, true)
  const PYTHON := HASH_ANYWHERE.(docstring := true)
  const HASH_AFTER_SPACE := HASH_ANYWHERE.(hash := AfterSpace)
  const SQL := CommentSyntax(["--"], [("/*", "*/")], NoHash, false, true)
  const DASH := SQL.(block := [])
  const MARKUP := CommentSyntax([], [("<!--", "-->")], NoHash, false, false)
  const CSS := CommentSyntax([], [("/*", "*/")], NoHash, false, true)

  /** Block markers are never empty; an empty pair would not advance the scan. */
  predicate WellFormed(syntax: CommentSyntax) {
    forall k :: 0 <= k < |syntax.block| ==> syntax.block[k].0 != "" && syntax.block[k].1 != ""
  }

  // ------------------------------------------------------------------ the syntax of a path

  const SLASH_EXTENSIONS := [
    "js", "ts", "jsx", "tsx", "mjs", "cjs", "go", "java", "kt", "php", "c",
    "h", "cpp", "cc", "hpp", "cs", "swift", "rs", "scss"]
  const SPACED_HASH_EXTENSIONS := ["sh", "bash", "zsh", "yaml", "yml", "toml", "env", "ini", "cfg", "conf"]
  const MARKUP_EXTENSIONS := ["html", "htm", "xml", "vue", "svelte", "md"]

  /** What the registrations come to: the last one of an extension counts. */
  function ByExtension(extension: string): Option<CommentSyntax> {
    if extension in ["css"] then Some(CSS)
    else if extension in MARKUP_EXTENSIONS then Some(MARKUP)
    else if extension in ["lua", "hs"] then Some(DASH)
    else if extension in ["sql"] then Some(SQL)
    else if extension in SPACED_HASH_EXTENSIONS then Some(HASH_AFTER_SPACE)
    else if extension in ["rb", "r", "pl"] then Some(HASH_ANYWHERE)
    else if extension in ["py"] then Some(PYTHON)
    else if extension in SLASH_EXTENSIONS then Some(SLASH)
    else None
  }

  lemma TableIsWellFormed(extension: string)
    ensures ByExtension(extension).Some? ==> WellFormed(ByExtension(extension).value)
  {
  }

  method Register(table0: map<string, CommentSyntax>, syntax: CommentSyntax, extensions: seq<string>)
    returns (table: map<string, CommentSyntax>)
    ensures forall e :: Entry(table, e) == if e in extensions then Some(syntax) else Entry(table0, e)
  {
    table := table0;
    for k := 0 to |extensions|
      invariant forall e :: Entry(table, e) == if e in extensions[..k] then Some(syntax) else Entry(table0, e)
    {
      assert extensions[..k + 1] == extensions[..k] + [extensions[k]];
      table := table[extensions[k] := syntax];
    }
    assert extensions[..|extensions|] == extensions;
  }

  function Entry(table: map<string, CommentSyntax>, extension: string): Option<CommentSyntax> {
    if extension in table then Some(table[extension]) else None
  }

  method BuildTable() returns (table: map<string, CommentSyntax>)
    ensures forall e :: Entry(table, e) == ByExtension(e)
  {
    table := Register(map[], SLASH, SLASH_EXTENSIONS);
    table := Register(table, PYTHON, ["py"]);
    table := Register(table, HASH_ANYWHERE, ["rb", "r", "pl"]);
    table := Register(table, HASH_AFTER_SPACE, SPACED_HASH_EXTENSIONS);
    table := Register(table, SQL, ["sql"]);
    table := Register(table, DASH, ["lua", "hs"]);
    table := Register(table, MARKUP, MARKUP_EXTENSIONS);
    table := Register(table, CSS, ["css"]);
  }

  /** The part of `s` after its last `c`; all of it when there is none. */
  function AfterLast(s: string, c: char): (r: string)
    ensures c !in r && |r| <= |s|
  {
    if s == "" then ""
    else
      var rest := AfterLast(s[1..], c);
      if c in s then rest else s
  }

  /** A plain object also answers to the names it inherits; these two have no upper-case letter. */
  predicate IsInherited(extension: string) {
    extension == "constructor" || extension == "__proto__"
  }

  datatype Lookup = Syntax(syntax: CommentSyntax) | NoSyntax | NotASyntax

  function SyntaxOf(base: string): Lookup {
    if "dockerfile" <= base || base == "makefile" || base == ".env" || ".env." <= base then Syntax(HASH_AFTER_SPACE)
    else
      var extension := if '.' in base then AfterLast(base, '.') else "";
      var found := ByExtension(extension);
      if found.Some? then Syntax(found.value) else if IsInherited(extension) then NotASyntax else NoSyntax
  }

  /** `lower` is the library's lower-casing. */
  function CommentSyntaxFor(lower: string -> string, filePath: string): Lookup {
    SyntaxOf(lower(AfterLast(filePath, '/')))
  }

  lemma SyntaxIsWellFormed(lower: string -> string, filePath: string)
    ensures CommentSyntaxFor(lower, filePath).Syntax? ==> WellFormed(CommentSyntaxFor(lower, filePath).syntax)
  {
    var base := lower(AfterLast(filePath, '/'));
    TableIsWellFormed(if '.' in base then AfterLast(base, '.') else "");
  }

  lemma {:induction false} AfterTheLast(front: string, c: char, rest: string)
    requires c !in rest
    ensures AfterLast(front + [c] + rest, c) == rest
  {
    var s := front + [c] + rest;
    assert s[|front|] == c;
    if front == [] {
      NoneToFind(rest, c);
      assert s[1..] == rest;
    } else {
      AfterTheLast(front[1..], c, rest);
      assert s[1..] == front[1..] + [c] + rest;
    }
  }

  lemma NoneToFind(s: string, c: char)
    requires c !in s
    ensures AfterLast(s, c) == s
  {
  }

  lemma ConstructorIsNotListed()
    ensures ByExtension("constructor") == None
  {
  }

  /** A look-up that finds what it should not: any file in any directory with the extension "constructor". */
  lemma InheritedExample(lower: string -> string, directory: string, stem: string)
    requires '/' !in stem && stem != "" && stem[0] !in {'d', '.'}
    requires lower(stem + ".constructor") == stem + ".constructor"
    ensures CommentSyntaxFor(lower, directory + "/" + stem + ".constructor") == NotASyntax
  {
    ConstructorIsNotListed();
    hide ByExtension, AfterLast;
    var base := stem + ".constructor";
    assert directory + "/" + stem + ".constructor" == directory + ['/'] + base;
    AfterTheLast(directory, '/', base);
    assert base == stem + ['.'] + "constructor";
    AfterTheLast(stem, '.', "constructor");
    assert base[|stem|] == '.';
    assert base[0] == stem[0];
    assert base != "makefile" by { assert base[|base| - 1] == 'r'; }
  }

  // ------------------------------------------------------------------ text

  predicate IsWhitespace(c: char) {
    c as int == 32 || 9 <= c as int <= 13
  }

  predicate IsQuote(c: char) {
    c == '\"' || c == '\'' || c == '`'
  }

  predicate StartsAt(line: string, i: nat, marker: string) {
    i + |marker| <= |line| && line[i..i + |marker|] == marker
  }

  /** The first place at or after `from` where `marker` stands. */
  function IndexOf(line: string, marker: string, from: nat): (r: Option<nat>)
    ensures r.Some? ==> from <= r.value && StartsAt(line, r.value, marker)
    ensures r.Some? ==> forall k: nat :: from <= k < r.value ==> !StartsAt(line, k, marker)
    ensures r.None? ==> forall k: nat :: from <= k ==> !StartsAt(line, k, marker)
    decreases |line| - from
  {
    if from > |line| then None
    else if StartsAt(line, from, marker) then Some(from)
    else IndexOf(line, marker, from + 1)
  }

  function FirstBlock(line: string, i: nat, block: seq<(string, string)>): (r: Option<(string, string)>)
    ensures r.Some? ==> StartsAt(line, i, r.value.0)
    ensures r.Some? ==> exists k :: 0 <= k < |block| && block[k] == r.value
  {
    if block == [] then None
    else if StartsAt(line, i, block[0].0) then Some(block[0])
    else FirstBlock(line, i, block[1..])
  }

  predicate LineMarkerAt(line: string, i: nat, syntax: CommentSyntax) {
    exists k :: 0 <= k < |syntax.line| && StartsAt(line, i, syntax.line[k])
  }

  predicate HashAt(line: string, i: nat, syntax: CommentSyntax)
    requires i < |line|
  {
    line[i] == '#' &&
    (syntax.hash == Anywhere || (syntax.hash == AfterSpace && (i == 0 || IsWhitespace(line[i - 1]))))
  }

  predicate RestIsComment(line: string, i: nat, syntax: CommentSyntax)
    requires i < |line|
  {
    LineMarkerAt(line, i, syntax) || HashAt(line, i, syntax)
  }

  function Indent(line: string, i: nat): (r: nat)
    requires i <= |line|
    ensures i <= r <= |line|
    ensures forall k :: i <= k < r ==> IsWhitespace(line[k])
    ensures r < |line| ==> !IsWhitespace(line[r])
    decreases |line| - i
  {
    if i < |line| && IsWhitespace(line[i]) then Indent(line, i + 1) else i
  }

  const DOUBLE_TRIPLE := "\"\"\""
  const SINGLE_TRIPLE := "'''"

  /** The docstring opener at `i`. */
  function TripleAt(line: string, i: nat): (r: Option<string>)
    ensures r.Some? ==> |r.value| == 3 && StartsAt(line, i, r.value)
  {
    if StartsAt(line, i, DOUBLE_TRIPLE) then Some(DOUBLE_TRIPLE)
    else if StartsAt(line, i, SINGLE_TRIPLE) then Some(SINGLE_TRIPLE)
    else None
  }

  function Docstring(line: string, syntax: CommentSyntax): Option<string> {
    if syntax.docstring then TripleAt(line, Indent(line, 0)) else None
  }

  // ------------------------------------------------------------------ spans

  datatype Span = Span(start: nat, end: nat)

  predicate Covered(spans: seq<Span>, col: nat) {
    exists k :: 0 <= k < |spans| && spans[k].start <= col < spans[k].end
  }

  /** Non-empty, in order, disjoint, and between `from` and `to`. */
  predicate Tidy(spans: seq<Span>, from: nat, to: nat) {
    (forall k :: 0 <= k < |spans| ==> from <= spans[k].start < spans[k].end <= to) &&
    (forall j, k :: 0 <= j < k < |spans| ==> spans[j].end <= spans[k].start)
  }

  /** Where a block comment opened at `i` ends. */
  function BlockEnd(line: string, i: nat, open: string, close: string): (r: nat)
    requires open != "" && close != "" && StartsAt(line, i, open)
    ensures i < r <= |line|
  {
    var at := IndexOf(line, close, i + |open|);
    if at.None? then |line| else at.value + |close|
  }

  /** One turn of the scan: the comment found, where it goes on, the quote then open. */
  datatype Move = Move(span: Option<Span>, next: nat, quote: Option<char>)

  function MoveAt(line: string, syntax: CommentSyntax, i: nat, quote: Option<char>): (m: Move)
    requires WellFormed(syntax) && i < |line|
    ensures i < m.next
    ensures m.span.Some? ==> m.span.value == Span(i, m.next) && m.next <= |line| && m.quote.None?
  {
    if quote.Some? then
      if line[i] == '\\' then Move(None, i + 2, quote)
      else Move(None, i + 1, if line[i] == quote.value then None else quote)
    else if syntax.quotes && IsQuote(line[i]) then Move(None, i + 1, Some(line[i]))
    else
      var block := FirstBlock(line, i, syntax.block);
      if block.Some? then
        var end := BlockEnd(line, i, block.value.0, block.value.1);
        Move(Some(Span(i, end)), end, None)
      else if RestIsComment(line, i, syntax) then Move(Some(Span(i, |line|)), |line|, None)
      else Move(None, i + 1, None)
  }

  /** The spans from column `i` on, reached with `quote` open. */
  function SpansFrom(line: string, syntax: CommentSyntax, i: nat, quote: Option<char>): (r: seq<Span>)
    requires WellFormed(syntax)
    decreases |line| - i
  {
    if i >= |line| then []
    else
      var m := MoveAt(line, syntax, i, quote);
      var rest := SpansFrom(line, syntax, m.next, m.quote);
      if m.span.Some? then [m.span.value] + rest else rest
  }

  function Spans(line: string, syntax: CommentSyntax): seq<Span>
    requires WellFormed(syntax)
  {
    var first := Indent(line, 0);
    var opener := Docstring(line, syntax);
    if opener.None? then SpansFrom(line, syntax, 0, None)
    else
      var end := BlockEnd(line, first, opener.value, opener.value);
      [Span(first, end)] + SpansFrom(line, syntax, end, None)
  }

  /** The docstring opened on the line, if any, and where the scan goes on. */
  method ReadDocstring(line: string) returns (spans: seq<Span>, next: nat)
    ensures var first := Indent(line, 0);
            match TripleAt(line, first)
            case None => spans == [] && next == 0
            case Some(opener) => next == BlockEnd(line, first, opener, opener) && spans == [Span(first, next)]
  {
    var first := 0;
    while first < |line| && IsWhitespace(line[first])
      invariant first <= |line|
      invariant Indent(line, 0) == Indent(line, first)
    {
      first := first + 1;
    }
    var opener := TripleAt(line, first);
    if opener.Some? {
      var close := IndexOf(line, opener.value, first + 3);
      next := if close.Some? then close.value + 3 else |line|;
      spans := [Span(first, next)];
    } else {
      next, spans := 0, [];
    }
  }

  method FindCommentSpans(line: string, syntax: CommentSyntax) returns (spans: seq<Span>)
    requires WellFormed(syntax)
    ensures spans == Spans(line, syntax)
  {
    spans := [];
    var quote: Option<char> := None;
    var i := 0;
    if syntax.docstring {
      spans, i := ReadDocstring(line);
    }

    ghost var all := Spans(line, syntax);
    while i < |line|
      invariant all == spans + SpansFrom(line, syntax, i, quote)
      decreases |line| - i
    {
      var move := ReadOn(line, syntax, i, quote);
      if move.span.Some? {
        spans := spans + [move.span.value];
      }
      i, quote := move.next, move.quote;
    }
  }

  method ReadOn(line: string, syntax: CommentSyntax, i: nat, quote: Option<char>) returns (move: Move)
    requires WellFormed(syntax) && i < |line|
    ensures move == MoveAt(line, syntax, i, quote)
  {
    if quote.Some? {
      if line[i] == '\\' {
        return Move(None, i + 2, quote);
      }
      if line[i] == quote.value {
        return Move(None, i + 1, None);
      }
      return Move(None, i + 1, quote);
    }
    if syntax.quotes && IsQuote(line[i]) {
      return Move(None, i + 1, Some(line[i]));
    }
    var block := FirstBlock(line, i, syntax.block);
    if block.Some? {
      var (open, close) := block.value;
      var closeAt := IndexOf(line, close, i + |open|);
      var end := if closeAt.None? then |line| else closeAt.value + |close|;
      return Move(Some(Span(i, end)), end, None);
    }
    if RestIsComment(line, i, syntax) {
      return Move(Some(Span(i, |line|)), |line|, None);
    }
    return Move(None, i + 1, None);
  }

  lemma {:induction false} SpansFromAreTidy(line: string, syntax: CommentSyntax, i: nat, quote: Option<char>)
    requires WellFormed(syntax)
    ensures Tidy(SpansFrom(line, syntax, i, quote), i, |line|)
    decreases |line| - i
  {
    if i < |line| {
      var m := MoveAt(line, syntax, i, quote);
      hide MoveAt;
      SpansFromAreTidy(line, syntax, m.next, m.quote);
    }
  }

  lemma SpansAreTidy(line: string, syntax: CommentSyntax)
    requires WellFormed(syntax)
    ensures Tidy(Spans(line, syntax), 0, |line|)
  {
    var opener := Docstring(line, syntax);
    if opener.None? {
      SpansFromAreTidy(line, syntax, 0, None);
    } else {
      SpansFromAreTidy(line, syntax, BlockEnd(line, Indent(line, 0), opener.value, opener.value), None);
    }
  }

  // ------------------------------------------------------------------ the lexer

  /**
   * What the lexer is in the middle of. `Lead`: the white space before a
   * docstring. `Block`: a comment with `skip` characters of its opener still to
   * read. `Closing`: the last `left` characters of one.
   */
  datatype State =
    | Code
    | Lead(opener: string)
    | Quoted(quote: char, escaped: bool)
    | Block(close: string, skip: nat)
    | Closing(left: nat)
    | Rest

  predicate IsComment(s: State) {
    s.Block? || s.Closing? || s.Rest?
  }

  /** The state in which the character at `i` is read. */
  function Enter(line: string, syntax: CommentSyntax, i: nat, s: State): State
    requires i < |line|
  {
    match s
    case Lead(opener) => if IsWhitespace(line[i]) then s else Block(opener, 3)
    case Block(close, 0) => if StartsAt(line, i, close) then Closing(|close|) else s
    case Code =>
      if syntax.quotes && IsQuote(line[i]) then Code
      else
        var block := FirstBlock(line, i, syntax.block);
        if block.Some? then Block(block.value.1, |block.value.0|)
        else if RestIsComment(line, i, syntax) then Rest
        else Code
    case _ => s
  }

  /** The state after reading `c` in state `s`. */
  function Leave(syntax: CommentSyntax, c: char, s: State): State {
    match s
    case Code => if syntax.quotes && IsQuote(c) then Quoted(c, false) else Code
    case Quoted(quote, true) => Quoted(quote, false)
    case Quoted(quote, false) =>
      if c == '\\' then Quoted(quote, true) else if c == quote then Code else s
    case Block(close, skip) => Block(close, if skip > 0 then skip - 1 else 0)
    case Closing(left) => if left > 1 then Closing(left - 1) else Code
    case _ => s
  }

  /** The lexer's state before the character at `i`. */
  function Lex(line: string, syntax: CommentSyntax, i: nat): State
    requires i <= |line|
  {
    if i == 0 then
      var opener := Docstring(line, syntax);
      if opener.Some? then Lead(opener.value) else Code
    else Leave(syntax, line[i - 1], Enter(line, syntax, i - 1, Lex(line, syntax, i - 1)))
  }

  predicate InComment(line: string, syntax: CommentSyntax, col: nat)
    requires col < |line|
  {
    IsComment(Enter(line, syntax, col, Lex(line, syntax, col)))
  }

  function Reached(quote: Option<char>): State {
    if quote.Some? then Quoted(quote.value, false) else Code
  }

  /** The lexer's state within a block comment whose body starts at `body`. */
  function InBlock(close: string, body: nat, closeAt: Option<nat>, k: nat): State {
    if k < body then Block(close, body - k)
    else if closeAt.None? || k <= closeAt.value then Block(close, 0)
    else if k < closeAt.value + |close| then Closing(closeAt.value + |close| - k)
    else Code
  }

  /** Every character of a block comment is read in a comment state. */
  lemma BlockIsComment(
    line: string, syntax: CommentSyntax, i: nat, open: string, close: string, k: nat)
    requires open != "" && close != "" && StartsAt(line, i, open)
    requires Enter(line, syntax, i, Lex(line, syntax, i)) == Block(close, |open|)
    requires i <= k < BlockEnd(line, i, open, close)
    ensures InComment(line, syntax, k)
    ensures Lex(line, syntax, k + 1) == InBlock(close, i + |open|, IndexOf(line, close, i + |open|), k + 1)
  {
    hide Enter, Lex, InComment, InBlock;
    BlockRun(line, syntax, i, close, i + |open|, IndexOf(line, close, i + |open|), k);
  }

  lemma {:induction false} BlockRun(
    line: string, syntax: CommentSyntax, i: nat, close: string, body: nat, closeAt: Option<nat>, k: nat)
    requires i < body && i <= k < |line| && close != "" && Closes(line, close, body, closeAt)
    requires Enter(line, syntax, i, Lex(line, syntax, i)) == Block(close, body - i)
    requires closeAt.Some? ==> body <= closeAt.value && k < closeAt.value + |close|
    ensures InComment(line, syntax, k) && Lex(line, syntax, k + 1) == InBlock(close, body, closeAt, k + 1)
    decreases k
  {
    if k > i {
      hide *;
      BlockRun(line, syntax, i, close, body, closeAt, k - 1);
      BlockGoesOn(line, syntax, close, body, closeAt, k);
    } else {
      assert ReadInBlock(close, body, closeAt, i) == Block(close, body - i);
      hide Enter, Lex, InComment, InBlock, ReadInBlock;
      ReadsOnInBlock(line, syntax, close, body, closeAt, k);
    }
  }

  lemma BlockGoesOn(line: string, syntax: CommentSyntax, close: string, body: nat, closeAt: Option<nat>, k: nat)
    requires k < |line| && close != "" && Closes(line, close, body, closeAt)
    requires closeAt.Some? ==> body <= closeAt.value && k < closeAt.value + |close|
    requires Lex(line, syntax, k) == InBlock(close, body, closeAt, k)
    ensures InComment(line, syntax, k) && Lex(line, syntax, k + 1) == InBlock(close, body, closeAt, k + 1)
  {
    hide Lex, InComment, Enter, ReadInBlock, InBlock, Closes;
    EnterBlock(line, syntax, close, body, closeAt, k);
    ReadsOnInBlock(line, syntax, close, body, closeAt, k);
  }

  lemma ReadsOnInBlock(line: string, syntax: CommentSyntax, close: string, body: nat, closeAt: Option<nat>, k: nat)
    requires k < |line| && Enter(line, syntax, k, Lex(line, syntax, k)) == ReadInBlock(close, body, closeAt, k)
    requires close != "" && (closeAt.Some? ==> body <= closeAt.value && k < closeAt.value + |close|)
    ensures InComment(line, syntax, k) && Lex(line, syntax, k + 1) == InBlock(close, body, closeAt, k + 1)
  {
    ReadOne(line, syntax, k, ReadInBlock(close, body, closeAt, k));
    hide Enter, Lex, InComment;
    LeaveBlock(syntax, line[k], close, body, closeAt, k);
  }

  lemma ReadOne(line: string, syntax: CommentSyntax, k: nat, s: State)
    requires k < |line| && Enter(line, syntax, k, Lex(line, syntax, k)) == s
    ensures InComment(line, syntax, k) == IsComment(s)
    ensures Lex(line, syntax, k + 1) == Leave(syntax, line[k], s)
  {
  }

  /** `closeAt` is the first closer at or after `body`. */
  ghost predicate Closes(line: string, close: string, body: nat, closeAt: Option<nat>) {
    closeAt == IndexOf(line, close, body)
  }

  function ReadInBlock(close: string, body: nat, closeAt: Option<nat>, k: nat): State {
    if closeAt.Some? && k == closeAt.value then Closing(|close|) else InBlock(close, body, closeAt, k)
  }

  lemma EnterBlock(line: string, syntax: CommentSyntax, close: string, body: nat, closeAt: Option<nat>, k: nat)
    requires Closes(line, close, body, closeAt) && k < |line|
    requires closeAt.Some? ==> k < closeAt.value + |close|
    ensures Enter(line, syntax, k, InBlock(close, body, closeAt, k)) == ReadInBlock(close, body, closeAt, k)
  {
  }

  lemma LeaveBlock(syntax: CommentSyntax, c: char, close: string, body: nat, closeAt: Option<nat>, k: nat)
    requires close != "" && (closeAt.Some? ==> body <= closeAt.value && k < closeAt.value + |close|)
    ensures IsComment(ReadInBlock(close, body, closeAt, k))
    ensures Leave(syntax, c, ReadInBlock(close, body, closeAt, k)) == InBlock(close, body, closeAt, k + 1)
  {
  }

  lemma {:induction false} RestStays(line: string, syntax: CommentSyntax, i: nat, k: nat)
    requires i <= k < |line|
    requires Enter(line, syntax, i, Lex(line, syntax, i)) == Rest
    ensures InComment(line, syntax, k) && Lex(line, syntax, k + 1) == Rest
    decreases k
  {
    if k > i {
      RestStays(line, syntax, i, k - 1);
    }
  }

  lemma CoveredSplits(span: Span, rest: seq<Span>, col: nat)
    ensures Covered([span] + rest, col) <==> span.start <= col < span.end || Covered(rest, col)
  {
    var spans := [span] + rest;
    assert spans[0] == span;
    if Covered(rest, col) {
      var k :| 0 <= k < |rest| && rest[k].start <= col < rest[k].end;
      assert spans[k + 1] == rest[k];
    }
  }

  /** A block comment from `i`: its span, then the rest of the line. */
  lemma BlockThenRest(
    line: string, syntax: CommentSyntax, i: nat, open: string, close: string, rest: seq<Span>, col: nat)
    requires open != "" && close != "" && StartsAt(line, i, open) && i <= col < |line|
    requires Enter(line, syntax, i, Lex(line, syntax, i)) == Block(close, |open|)
    requires Tidy(rest, BlockEnd(line, i, open, close), |line|)
    requires BlockEnd(line, i, open, close) <= col ==> (Covered(rest, col) <==> InComment(line, syntax, col))
    ensures Covered([Span(i, BlockEnd(line, i, open, close))] + rest, col) <==> InComment(line, syntax, col)
  {
    var end := BlockEnd(line, i, open, close);
    CoveredSplits(Span(i, end), rest, col);
    if col < end {
      BlockIsComment(line, syntax, i, open, close, col);
    }
  }

  /** From any column the scan stops at, it finds exactly what the lexer finds. */
  lemma {:induction false} SpansFromAreTheComments(
    line: string, syntax: CommentSyntax, i: nat, quote: Option<char>, col: nat)
    requires WellFormed(syntax) && i <= col < |line|
    requires Lex(line, syntax, i) == Reached(quote)
    ensures Covered(SpansFrom(line, syntax, i, quote), col) <==> InComment(line, syntax, col)
    decreases |line| - i, 1
  {
    var m := MoveAt(line, syntax, i, quote);
    if quote.Some? || (syntax.quotes && IsQuote(line[i])) {
      StringsAreRead(line, syntax, i, quote);
      assert SpansFrom(line, syntax, i, quote) == SpansFrom(line, syntax, m.next, m.quote);
      hide Lex, InComment, MoveAt, SpansFrom, Reached;
      SkipNone(line, syntax, m.next, m.quote, col);
    } else {
      CodeIsTheComments(line, syntax, i, col);
    }
  }

  /** In a string, and where one opens, the lexer moves as the scan does and reads no comment. */
  lemma StringsAreRead(line: string, syntax: CommentSyntax, i: nat, quote: Option<char>)
    requires WellFormed(syntax) && i < |line| && Lex(line, syntax, i) == Reached(quote)
    requires quote.Some? || (syntax.quotes && IsQuote(line[i]))
    ensures var m := MoveAt(line, syntax, i, quote);
            m.span.None? && (m.next <= |line| ==> Lex(line, syntax, m.next) == Reached(m.quote)) &&
            forall k :: i <= k < m.next && k < |line| ==> !InComment(line, syntax, k)
  {
    ReadOne(line, syntax, i, Reached(quote));
    hide Lex, InComment, FirstBlock, RestIsComment, BlockEnd;
    if quote.Some? && line[i] == '\\' && i + 1 < |line| {
      ReadOne(line, syntax, i + 1, Quoted(quote.value, true));
    }
  }

  lemma {:induction false} CodeIsTheComments(line: string, syntax: CommentSyntax, i: nat, col: nat)
    requires WellFormed(syntax) && i <= col < |line|
    requires Lex(line, syntax, i) == Code
    requires !(syntax.quotes && IsQuote(line[i]))
    ensures Covered(SpansFrom(line, syntax, i, None), col) <==> InComment(line, syntax, col)
    decreases |line| - i, 0
  {
    var block := FirstBlock(line, i, syntax.block);
    if block.Some? {
      var (open, close) := block.value;
      var end := BlockEnd(line, i, open, close);
      CodeOpensBlock(line, syntax, i, open, close);
      hide Enter, Lex, MoveAt, SpansFrom, FirstBlock, InComment, BlockEnd;
      SpansFromAreTidy(line, syntax, end, None);
      if end <= col {
        BlockCloses(line, syntax, i, open, close);
        SpansFromAreTheComments(line, syntax, end, None, col);
      }
      BlockThenRest(line, syntax, i, open, close, SpansFrom(line, syntax, end, None), col);
    } else if RestIsComment(line, i, syntax) {
      RestStays(line, syntax, i, col);
      hide Enter, Lex, InComment;
      assert SpansFrom(line, syntax, i, None)[0] == Span(i, |line|);
    } else {
      SkipNone(line, syntax, i + 1, None, col);
    }
  }

  lemma CodeOpensBlock(line: string, syntax: CommentSyntax, i: nat, open: string, close: string)
    requires WellFormed(syntax) && i < |line| && Lex(line, syntax, i) == Code
    requires !(syntax.quotes && IsQuote(line[i])) && FirstBlock(line, i, syntax.block) == Some((open, close))
    ensures open != "" && close != "" && StartsAt(line, i, open)
    ensures Enter(line, syntax, i, Lex(line, syntax, i)) == Block(close, |open|)
    ensures var end := BlockEnd(line, i, open, close);
            SpansFrom(line, syntax, i, None) == [Span(i, end)] + SpansFrom(line, syntax, end, None)
  {
  }

  lemma BlockCloses(line: string, syntax: CommentSyntax, i: nat, open: string, close: string)
    requires open != "" && close != "" && StartsAt(line, i, open)
    requires Enter(line, syntax, i, Lex(line, syntax, i)) == Block(close, |open|)
    requires BlockEnd(line, i, open, close) < |line|
    ensures Lex(line, syntax, BlockEnd(line, i, open, close)) == Code
  {
    BlockIsComment(line, syntax, i, open, close, BlockEnd(line, i, open, close) - 1);
  }

  /** Up to the next column the scan stops at there is no comment. */
  lemma {:induction false} SkipNone(
    line: string, syntax: CommentSyntax, next: nat, quote: Option<char>, col: nat)
    requires WellFormed(syntax) && col < |line|
    requires next <= |line| ==> Lex(line, syntax, next) == Reached(quote)
    requires col < next ==> !InComment(line, syntax, col)
    ensures Covered(SpansFrom(line, syntax, next, quote), col) <==> InComment(line, syntax, col)
    decreases |line| - next, 2
  {
    if next <= col {
      SpansFromAreTheComments(line, syntax, next, quote, col);
    } else {
      SpansFromAreTidy(line, syntax, next, quote);
    }
  }

  lemma {:induction false} LeadStays(line: string, syntax: CommentSyntax, k: nat)
    requires Docstring(line, syntax).Some? && k <= Indent(line, 0)
    ensures Lex(line, syntax, k) == Lead(Docstring(line, syntax).value)
    decreases k
  {
    if k > 0 {
      LeadStays(line, syntax, k - 1);
    }
  }

  /** The jumping scan and the lexer agree on every column of every line. */
  lemma SpansAreTheComments(line: string, syntax: CommentSyntax, col: nat)
    requires WellFormed(syntax) && col < |line|
    ensures Covered(Spans(line, syntax), col) <==> InComment(line, syntax, col)
  {
    var opener := Docstring(line, syntax);
    if opener.None? {
      SpansFromAreTheComments(line, syntax, 0, None, col);
    } else {
      var first := Indent(line, 0);
      var end := BlockEnd(line, first, opener.value, opener.value);
      LeadStays(line, syntax, first);
      DocstringOpens(line, syntax);
      SpansFromAreTidy(line, syntax, end, None);
      if end <= col {
        BlockCloses(line, syntax, first, opener.value, opener.value);
        SpansFromAreTheComments(line, syntax, end, None, col);
      }
      if col < first {
        LeadStays(line, syntax, col);
        CoveredSplits(Span(first, end), SpansFrom(line, syntax, end, None), col);
      } else {
        BlockThenRest(line, syntax, first, opener.value, opener.value, SpansFrom(line, syntax, end, None), col);
      }
    }
  }

  /** Spans in order, and exactly the columns the lexer reads as comment. */
  lemma SpansAreExact(line: string, syntax: CommentSyntax)
    requires WellFormed(syntax)
    ensures Tidy(Spans(line, syntax), 0, |line|)
    ensures forall col: nat :: Covered(Spans(line, syntax), col) <==> col < |line| && InComment(line, syntax, col)
  {
    SpansAreTidy(line, syntax);
    forall col: nat | col < |line|
      ensures Covered(Spans(line, syntax), col) <==> InComment(line, syntax, col)
    {
      SpansAreTheComments(line, syntax, col);
    }
  }

  /** Only the last span can cover the last column. */
  lemma LastSpanEndsTheLine(spans: seq<Span>, n: nat)
    requires Tidy(spans, 0, n)
    ensures n > 0 && Covered(spans, n - 1) <==> spans != [] && spans[|spans| - 1].end == n
  {
    if spans != [] && spans[|spans| - 1].end == n {
      assert spans[|spans| - 1].start <= n - 1 < spans[|spans| - 1].end;
    }
  }

  lemma DocstringOpens(line: string, syntax: CommentSyntax)
    requires Docstring(line, syntax).Some?
    ensures Indent(line, 0) < |line|
    ensures Enter(line, syntax, Indent(line, 0), Lead(Docstring(line, syntax).value)) ==
            Block(Docstring(line, syntax).value, 3)
  {
  }

  // ------------------------------------------------------------------ queries

  /** Start of the comment that reaches the end of the line, or -1. */
  method CommentSpanStart(line: string, syntax: CommentSyntax) returns (r: int)
    requires WellFormed(syntax)
    ensures -1 <= r < |line|
    ensures r >= 0 <==> line != "" && InComment(line, syntax, |line| - 1)
    ensures r >= 0 ==> forall col :: r <= col < |line| ==> InComment(line, syntax, col)
  {
    var spans := FindCommentSpans(line, syntax);
    SpansAreExact(line, syntax);
    LastSpanEndsTheLine(spans, |line|);
    if spans != [] && spans[|spans| - 1].end == |line| {
      r := spans[|spans| - 1].start;
    } else {
      r := -1;
    }
  }

  /**
   * Whether the match starts inside a comment. Nothing does when the path has no known syntax. `None`
   * is the error thrown when the look-up by extension finds a property every object inherits, and the
   * line is not empty.
   */
  method IsInsideComment(lower: string -> string, line: string, matchStart: nat, filePath: string)
    returns (inside: Option<bool>)
    ensures match CommentSyntaxFor(lower, filePath)
            case NoSyntax => inside == Some(false)
            case NotASyntax => inside == if line == "" then Some(false) else None
            case Syntax(syntax) =>
              WellFormed(syntax) && inside == Some(matchStart < |line| && InComment(line, syntax, matchStart))
  {
    SyntaxIsWellFormed(lower, filePath);
    match CommentSyntaxFor(lower, filePath)
    case NoSyntax => return Some(false);
    case NotASyntax => return if line == "" then Some(false) else None;
    case Syntax(syntax) =>
      var spans := FindCommentSpans(line, syntax);
      SpansAreExact(line, syntax);
      var covered := IsCovered(spans, matchStart);
      return Some(covered);
  }

  method IsCovered(spans: seq<Span>, col: nat) returns (covered: bool)
    ensures covered <==> Covered(spans, col)
  {
    var k := 0;
    covered := false;
    while k < |spans| && !covered
      invariant k <= |spans|
      invariant covered <==> Covered(spans[..k], col)
    {
      covered := spans[k].start <= col < spans[k].end;
      assert spans[..k + 1] == spans[..k] + [spans[k]];
      assert covered ==> spans[..k + 1][k].start <= col < spans[..k + 1][k].end;
      k := k + 1;
    }
    if k == |spans| { assert spans[..k] == spans; }
  }
}
