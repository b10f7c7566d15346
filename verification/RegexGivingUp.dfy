/**
 * What giving up after one failing read costs: src/queue/rules/regex-literal.ts promises that
 * it can only miss a literal and never invent one. Against the scan that tries every read,
 * this is exactly when it changes anything.
 */
module RegexGivingUp {
  import opened Seqs
  import opened CommentSpan
  import opened RegexOpeners
  import opened RegexLiteral

  /** One turn a scan took: where it stood, where it went on, and the literal it found. */
  datatype Taken = Taken(at: nat, next: nat, last: Option<char>, span: Option<Span>)

  function TakenBy(i: nat, turn: Turn): seq<Taken> {
    if turn.Stop? then [] else [Taken(i, turn.next, turn.last, turn.span)]
  }

  /** The turns of the scan from column `i`. */
  function Turns(
    line: string, language: Language, openers: Openers, i: nat, last: Option<char>, exhausted: bool): seq<Taken>
    decreases |line| - i
  {
    if i >= |line| then []
    else
      var turn := TurnAt(line, i, language, openers, last, exhausted);
      if turn.Stop? || turn.next <= i then TakenBy(i, turn)
      else TakenBy(i, turn) + Turns(line, language, openers, turn.next, turn.last, turn.exhausted)
  }

  /** The turns of the scan that tries every read, whatever failed before. */
  function PatientTurns(line: string, language: Language, openers: Openers, i: nat, last: Option<char>): seq<Taken>
    decreases |line| - i
  {
    if i >= |line| then []
    else
      var turn := TurnAt(line, i, language, openers, last, false);
      if turn.Stop? || turn.next <= i then TakenBy(i, turn)
      else TakenBy(i, turn) + PatientTurns(line, language, openers, turn.next, turn.last)
  }

  function SpansOf(turns: seq<Taken>): seq<Span> {
    if turns == [] then []
    else
      var rest := SpansOf(turns[1..]);
      if turns[0].span.Some? then [turns[0].span.value] + rest else rest
  }

  /** The spans of the scan that tries every read. */
  function PatientSpans(line: string, language: Language): seq<Span> {
    SpansOf(PatientTurns(line, language, OpenersOf(language), 0, None))
  }

  /** The slash this turn would read a literal from, if any. */
  function ReadAt(line: string, i: nat, language: Language, openers: Openers, last: Option<char>): Option<nat>
    requires i < |line|
  {
    if IsWhitespace(line[i]) || CommentStartsAt(line, i, language) then None
    else
      var start := Opening(line, i, language, openers).0;
      if start >= 0 then if start < |line| && line[start] == '/' && language == Js then Some(start) else None
      else if RegexMayStart(line, i, language, last) then Some(i)
      else None
  }

  /** The first slash at which a read is declined that would have found its end. */
  function FirstDeclined(
    line: string, language: Language, openers: Openers, i: nat, last: Option<char>, exhausted: bool): Option<nat>
    decreases |line| - i
  {
    if i >= |line| then None
    else
      var read := ReadAt(line, i, language, openers, last);
      if exhausted && read.Some? && RegexEnd(line, read.value) != -1 then read
      else
        var turn := TurnAt(line, i, language, openers, last, exhausted);
        if turn.Stop? || turn.next <= i then None
        else FirstDeclined(line, language, openers, turn.next, turn.last, turn.exhausted)
  }

  /** Apart from the flag. */
  predicate SameTurn(a: Turn, b: Turn) {
    if a.Stop? then b.Stop? else b.Turn? && a.next == b.next && a.last == b.last && a.span == b.span
  }

  /** A turn that reads nothing, or whose read would fail, does not depend on the flag. */
  lemma FlagDoesNotMatter(
    line: string, i: nat, language: Language, openers: Openers, last: Option<char>, exhausted: bool)
    requires i < |line|
    requires var read := ReadAt(line, i, language, openers, last);
             !exhausted || read.None? || RegexEnd(line, read.value) == -1
    ensures SameTurn(TurnAt(line, i, language, openers, last, exhausted), TurnAt(line, i, language, openers, last, false))
  {
    var opener := Opening(line, i, language, openers);
    if IsWhitespace(line[i]) || CommentStartsAt(line, i, language) {
    } else if opener.0 >= 0 {
      ArgumentFlag(line, opener.0, opener.1, language, last, exhausted);
    } else {
      TokenFlag(line, i, language, last, exhausted);
    }
  }

  lemma ArgumentFlag(
    line: string, start: nat, bare: bool, language: Language, last: Option<char>, exhausted: bool)
    requires exhausted && start < |line| && line[start] == '/' && language == Js ==> RegexEnd(line, start) == -1
    ensures SameTurn(TurnAtOpener(line, start, bare, language, last, exhausted),
                     TurnAtOpener(line, start, bare, language, last, false))
  {
  }

  lemma TokenFlag(line: string, i: nat, language: Language, last: Option<char>, exhausted: bool)
    requires i < |line|
    requires exhausted && RegexMayStart(line, i, language, last) ==> RegexEnd(line, i) == -1
    ensures SameTurn(TurnAtToken(line, i, language, last, exhausted), TurnAtToken(line, i, language, last, false))
  {
  }

  /** A declined read that would have closed: the patient scan goes past it, the other does not. */
  lemma DecliningMatters(
    line: string, i: nat, language: Language, openers: Openers, last: Option<char>)
    requires i < |line| && Anchored(openers, line)
    requires var read := ReadAt(line, i, language, openers, last);
             read.Some? && RegexEnd(line, read.value) != -1
    ensures var read := ReadAt(line, i, language, openers, last).value;
            var turn := TurnAt(line, i, language, openers, last, true);
            var patient := TurnAt(line, i, language, openers, last, false);
            && i <= read && turn.Turn? && patient.Turn? && read <= turn.next && turn.next < patient.next
            && turn.span.None? && (patient.span.Some? ==> patient.span.value.start == read)
  {
    OpenerAdvances(line, i, language, openers);
    var start := Opening(line, i, language, openers).0;
    if start >= 0 {
      ArgumentDeclined(line, start, Opening(line, i, language, openers).1, last);
    } else {
      TokenDeclined(line, i, last);
    }
  }

  lemma ArgumentDeclined(line: string, start: nat, bare: bool, last: Option<char>)
    requires start < |line| && line[start] == '/' && RegexEnd(line, start) != -1
    ensures var turn := TurnAtOpener(line, start, bare, Js, last, true);
            var patient := TurnAtOpener(line, start, bare, Js, last, false);
            && turn.Turn? && patient.Turn? && turn.next == start < patient.next
            && turn.span.None? && (patient.span.Some? ==> patient.span.value.start == start)
  {
  }

  lemma TokenDeclined(line: string, i: nat, last: Option<char>)
    requires i < |line| && RegexMayStart(line, i, Js, last) && RegexEnd(line, i) != -1
    ensures var turn := TurnAtToken(line, i, Js, last, true);
            var patient := TurnAtToken(line, i, Js, last, false);
            && turn.Turn? && patient.Turn? && turn.next == i + 1 < patient.next
            && turn.span.None? && (patient.span.Some? ==> patient.span.value.start == i)
  {
  }

  // ------------------------------------------------------------------ the same turns

  /** The two scans take the same turns exactly when no read is declined that would have closed. */
  lemma {:induction false} SameTurnsIff(
    line: string, language: Language, openers: Openers, i: nat, last: Option<char>, exhausted: bool)
    requires Anchored(openers, line)
    ensures Turns(line, language, openers, i, last, exhausted) == PatientTurns(line, language, openers, i, last) <==>
            FirstDeclined(line, language, openers, i, last, exhausted).None?
    decreases |line| - i
  {
    if i < |line| {
      var read := ReadAt(line, i, language, openers, last);
      var turn := TurnAt(line, i, language, openers, last, exhausted);
      var patient := TurnAt(line, i, language, openers, last, false);
      TurnAdvances(line, i, language, openers, last, exhausted);
      TurnAdvances(line, i, language, openers, last, false);
      hide TurnAt, ReadAt, Anchored;
      if exhausted && read.Some? && RegexEnd(line, read.value) != -1 {
        DecliningMatters(line, i, language, openers, last);
        assert Turns(line, language, openers, i, last, exhausted)[0].next == turn.next;
        assert PatientTurns(line, language, openers, i, last)[0].next == patient.next;
      } else {
        FlagDoesNotMatter(line, i, language, openers, last, exhausted);
        if turn.Turn? {
          SameTurnsIff(line, language, openers, turn.next, turn.last, turn.exhausted);
          SameHead(TakenBy(i, turn)[0],
                   Turns(line, language, openers, turn.next, turn.last, turn.exhausted),
                   PatientTurns(line, language, openers, turn.next, turn.last));
        }
      }
    }
  }

  lemma SameHead<T>(x: T, s: seq<T>, t: seq<T>)
    ensures [x] + s == [x] + t <==> s == t
  {
    if [x] + s == [x] + t {
      assert ([x] + s)[1..] == s && ([x] + t)[1..] == t;
    }
  }

  lemma {:induction false} TurnsGiveSpans(
    line: string, language: Language, openers: Openers, i: nat, last: Option<char>, exhausted: bool)
    requires Anchored(openers, line)
    ensures SpansOf(Turns(line, language, openers, i, last, exhausted)) ==
            ScanFrom(line, language, openers, i, last, exhausted)
    decreases |line| - i
  {
    if i < |line| {
      var turn := TurnAt(line, i, language, openers, last, exhausted);
      TurnAdvances(line, i, language, openers, last, exhausted);
      hide TurnAt, Anchored;
      if turn.Turn? {
        TurnsGiveSpans(line, language, openers, turn.next, turn.last, turn.exhausted);
        HeadSpans(TakenBy(i, turn)[0], Turns(line, language, openers, turn.next, turn.last, turn.exhausted));
      }
    }
  }

  lemma HeadSpans(x: Taken, rest: seq<Taken>)
    ensures SpansOf([x] + rest) == if x.span.Some? then [x.span.value] + SpansOf(rest) else SpansOf(rest)
  {
    assert ([x] + rest)[1..] == rest;
  }

  /** The flag changes no turn, and so no span, exactly when no read is declined that would have closed. */
  lemma GivingUpMattersIff(line: string, language: Language)
    ensures var openers := OpenersOf(language);
            Turns(line, language, openers, 0, None, false) == PatientTurns(line, language, openers, 0, None) <==>
            FirstDeclined(line, language, openers, 0, None, false).None?
    ensures FirstDeclined(line, language, OpenersOf(language), 0, None, false).None? ==>
              RegexLiteral.Spans(line, language) == PatientSpans(line, language)
  {
    var openers := OpenersOf(language);
    OpenersAreAnchored(language, line);
    hide Anchored, OpenersOf;
    SameTurnsIff(line, language, openers, 0, None, false);
    TurnsGiveSpans(line, language, openers, 0, None, false);
  }

  // ------------------------------------------------------------------ up to the first declined read

  lemma {:induction false} PatientIsTidy(line: string, language: Language, openers: Openers, i: nat, last: Option<char>)
    requires Anchored(openers, line)
    ensures Tidy(SpansOf(PatientTurns(line, language, openers, i, last)), i, |line|)
    decreases |line| - i
  {
    TidyNothing(i, |line|);
    if i < |line| {
      var turn := TurnAt(line, i, language, openers, last, false);
      TurnAdvances(line, i, language, openers, last, false);
      hide TurnAt, Anchored, Tidy;
      if turn.Turn? {
        PatientIsTidy(line, language, openers, turn.next, turn.last);
        HeadSpans(TakenBy(i, turn)[0], PatientTurns(line, language, openers, turn.next, turn.last));
        TidyBehind(turn, SpansOf(PatientTurns(line, language, openers, turn.next, turn.last)), i, |line|);
      }
    }
  }

  /** Two lists of spans that agree on what ends by `p`, and differ only in what starts at `p` or later. */
  ghost predicate AgreeUpTo(a: seq<Span>, b: seq<Span>, p: nat) {
    exists common: seq<Span>, x: seq<Span>, y: seq<Span> :: SplitsAt(a, common, x, p) && SplitsAt(b, common, y, p)
  }

  ghost predicate SplitsAt(a: seq<Span>, common: seq<Span>, rest: seq<Span>, p: nat) {
    && a == common + rest
    && (forall k :: 0 <= k < |common| ==> common[k].end <= p)
    && (forall k :: 0 <= k < |rest| ==> p <= rest[k].start)
  }

  lemma AgreeBehind(x: Span, a: seq<Span>, b: seq<Span>, p: nat)
    requires AgreeUpTo(a, b, p) && x.end <= p
    ensures AgreeUpTo([x] + a, [x] + b, p)
  {
    var common, y, z :| SplitsAt(a, common, y, p) && SplitsAt(b, common, z, p);
    assert [x] + (common + y) == ([x] + common) + y && [x] + (common + z) == ([x] + common) + z;
    assert SplitsAt([x] + a, [x] + common, y, p) && SplitsAt([x] + b, [x] + common, z, p);
  }

  lemma AgreeFrom(a: seq<Span>, b: seq<Span>, p: nat)
    requires forall k :: 0 <= k < |a| ==> p <= a[k].start
    requires forall k :: 0 <= k < |b| ==> p <= b[k].start
    ensures AgreeUpTo(a, b, p)
  {
    assert SplitsAt(a, [], a, p) && SplitsAt(b, [], b, p);
  }

  /** Up to the first read declined that would have closed, both scans find the same. */
  lemma {:induction false} AgreeUpToDeclined(
    line: string, language: Language, openers: Openers, i: nat, last: Option<char>, exhausted: bool)
    requires Anchored(openers, line)
    requires FirstDeclined(line, language, openers, i, last, exhausted).Some?
    ensures var p := FirstDeclined(line, language, openers, i, last, exhausted).value;
            i <= p && AgreeUpTo(ScanFrom(line, language, openers, i, last, exhausted),
                                SpansOf(PatientTurns(line, language, openers, i, last)), p)
    decreases |line| - i
  {
    var read := ReadAt(line, i, language, openers, last);
    var turn := TurnAt(line, i, language, openers, last, exhausted);
    TurnAdvances(line, i, language, openers, last, exhausted);
    if exhausted && read.Some? && RegexEnd(line, read.value) != -1 {
      DeclinedHere(line, language, openers, i, last);
    } else {
      FlagDoesNotMatter(line, i, language, openers, last, exhausted);
      hide TurnAt, ReadAt, Anchored, AgreeUpTo;
      AgreeUpToDeclined(line, language, openers, turn.next, turn.last, turn.exhausted);
      HeadSpans(TakenBy(i, turn)[0], PatientTurns(line, language, openers, turn.next, turn.last));
      if turn.span.Some? {
        AgreeBehind(turn.span.value, ScanFrom(line, language, openers, turn.next, turn.last, turn.exhausted),
                    SpansOf(PatientTurns(line, language, openers, turn.next, turn.last)),
                    FirstDeclined(line, language, openers, i, last, exhausted).value);
      }
    }
  }

  lemma DeclinedHere(line: string, language: Language, openers: Openers, i: nat, last: Option<char>)
    requires i < |line| && Anchored(openers, line)
    requires var read := ReadAt(line, i, language, openers, last);
             read.Some? && RegexEnd(line, read.value) != -1
    ensures var p := ReadAt(line, i, language, openers, last).value;
            i <= p && AgreeUpTo(ScanFrom(line, language, openers, i, last, true),
                                SpansOf(PatientTurns(line, language, openers, i, last)), p)
  {
    var p := ReadAt(line, i, language, openers, last).value;
    var turn := TurnAt(line, i, language, openers, last, true);
    var patient := TurnAt(line, i, language, openers, last, false);
    DecliningMatters(line, i, language, openers, last);
    TurnAdvances(line, i, language, openers, last, true);
    TurnAdvances(line, i, language, openers, last, false);
    hide TurnAt, ReadAt, Anchored, AgreeUpTo;
    ScanIsTidy(line, language, openers, turn.next, turn.last, turn.exhausted);
    PatientIsTidy(line, language, openers, patient.next, patient.last);
    HeadSpans(TakenBy(i, patient)[0], PatientTurns(line, language, openers, patient.next, patient.last));
    AgreeFrom(ScanFrom(line, language, openers, i, last, true),
              SpansOf(PatientTurns(line, language, openers, i, last)), p);
  }

  /** A literal is only ever invented, or missed, past the first declined read that would have closed:
      every literal found that starts before it is one the patient scan finds, and the other way round. */
  lemma InventsOnlyPastDeclined(line: string, language: Language, s: Span)
    requires var p := FirstDeclined(line, language, OpenersOf(language), 0, None, false);
             p.Some? ==> s.start < p.value
    ensures s in RegexLiteral.Spans(line, language) <==> s in PatientSpans(line, language)
  {
    var openers := OpenersOf(language);
    OpenersAreAnchored(language, line);
    hide Anchored, OpenersOf;
    if FirstDeclined(line, language, openers, 0, None, false).Some? {
      AgreeUpToDeclined(line, language, openers, 0, None, false);
      var p := FirstDeclined(line, language, openers, 0, None, false).value;
      var a, b := RegexLiteral.Spans(line, language), PatientSpans(line, language);
      var common, x, y :| SplitsAt(a, common, x, p) && SplitsAt(b, common, y, p);
    } else {
      SameTurnsIff(line, language, openers, 0, None, false);
      TurnsGiveSpans(line, language, openers, 0, None, false);
    }
  }

  // ------------------------------------------------------------------ a line that cannot decline one

  /** Once a literal does not close on the line, none that starts later does. */
  ghost predicate FailureIsFinal(line: string) {
    forall i, j :: 0 <= i < j < |line| && FailsAt(line, i) && line[j] == '/' ==> FailsAt(line, j)
  }

  predicate FailsAt(line: string, i: nat)
    requires i < |line|
  {
    line[i] == '/' && RegexEnd(line, i) == -1
  }

  /** A read that ran off the line, from `i` or before. */
  ghost predicate FailedBy(line: string, i: nat) {
    exists k :: 0 <= k <= i && k < |line| && FailsAt(line, k)
  }

  /** Reads become exhausted only by a read that fails. */
  lemma ExhaustedByRead(line: string, i: nat, language: Language, openers: Openers, last: Option<char>)
    requires i < |line| && Anchored(openers, line)
    ensures var turn := TurnAt(line, i, language, openers, last, false);
            turn.Turn? && turn.exhausted ==> FailedBy(line, turn.next)
  {
    OpenerAdvances(line, i, language, openers);
    var turn := TurnAt(line, i, language, openers, last, false);
    var start := Opening(line, i, language, openers).0;
    if turn.Turn? && turn.exhausted {
      var k := if start >= 0 then start else i;
      assert FailsAt(line, k);
    }
  }

  lemma StaysExhausted(line: string, i: nat, language: Language, openers: Openers, last: Option<char>)
    requires i < |line| && Anchored(openers, line)
    ensures var turn := TurnAt(line, i, language, openers, last, true);
            turn.Turn? ==> i < turn.next && turn.exhausted
  {
    TurnAdvances(line, i, language, openers, last, true);
  }

  lemma {:induction false} FinalFailureDeclinesNothing(
    line: string, language: Language, openers: Openers, i: nat, last: Option<char>, exhausted: bool)
    requires Anchored(openers, line) && FailureIsFinal(line)
    requires exhausted ==> FailedBy(line, i)
    ensures FirstDeclined(line, language, openers, i, last, exhausted).None?
    decreases |line| - i
  {
    if i < |line| {
      var turn := TurnAt(line, i, language, openers, last, exhausted);
      ReadsSlash(line, i, language, openers, last);
      TurnAdvances(line, i, language, openers, last, exhausted);
      if exhausted {
        StaysExhausted(line, i, language, openers, last);
      } else {
        ExhaustedByRead(line, i, language, openers, last);
      }
      hide TurnAt, ReadAt, Anchored;
      if turn.Turn? {
        FinalFailureDeclinesNothing(line, language, openers, turn.next, turn.last, turn.exhausted);
      }
    }
  }

  lemma ReadsSlash(line: string, i: nat, language: Language, openers: Openers, last: Option<char>)
    requires i < |line| && Anchored(openers, line)
    ensures var read := ReadAt(line, i, language, openers, last);
            read.Some? ==> i <= read.value < |line| && line[read.value] == '/'
  {
    OpenerAdvances(line, i, language, openers);
  }

  /** On such a line the flag changes no span. */
  lemma GivingUpIsHarmless(line: string, language: Language)
    requires FailureIsFinal(line)
    ensures RegexLiteral.Spans(line, language) == PatientSpans(line, language)
  {
    OpenersAreAnchored(language, line);
    FinalFailureDeclinesNothing(line, language, OpenersOf(language), 0, None, false);
    hide Anchored, OpenersOf;
    GivingUpMattersIff(line, language);
  }

  // ------------------------------------------------------------------ a line on which it invents

  const TRICKY := "/[/\"/\" pattern:\"x\""

  /** The line above, character by character. */
  predicate IsTricky(line: string) {
    && |line| == 18
    && line[0] == '/' && line[1] == '[' && line[2] == '/' && line[3] == '\"' && line[4] == '/'
    && line[5] == '\"' && line[6] == ' ' && line[7] == 'p' && line[8] == 'a' && line[9] == 't'
    && line[10] == 't' && line[11] == 'e' && line[12] == 'r' && line[13] == 'n' && line[14] == ':'
    && line[15] == '\"' && line[16] == 'x' && line[17] == '\"'
  }

  /** The first slash opens a class that never closes; the read declined at the second hides a string
      that the scan then sees differently, and takes what follows for a literal. */
  lemma GivingUpInvents()
    ensures RegexLiteral.Spans(TRICKY, Js) == [Span(15, 18)] && PatientSpans(TRICKY, Js) == []
  {
    var line := TRICKY;
    assert IsTricky(line);
    hide *;
    GivesUp(line);
    StaysPatient(line);
  }

  // its reads

  lemma FirstReadFails(line: string)
    requires IsTricky(line)
    ensures RegexEnd(line, 0) == -1
  {
    assert RegexEndFrom(line, 18, true) == -1;
    assert RegexEndFrom(line, 16, true) == -1;
    assert RegexEndFrom(line, 14, true) == -1;
    assert RegexEndFrom(line, 12, true) == -1;
    assert RegexEndFrom(line, 10, true) == -1;
    assert RegexEndFrom(line, 8, true) == -1;
    assert RegexEndFrom(line, 6, true) == -1;
    assert RegexEndFrom(line, 4, true) == -1;
    assert RegexEndFrom(line, 2, true) == -1;
  }

  lemma SecondReadCloses(line: string)
    requires IsTricky(line)
    ensures RegexEnd(line, 2) == 5
  {
    assert FlagsEnd(line, 5) == 5;
    assert RegexEndFrom(line, 4, false) == 5;
  }

  lemma StringsEnd(line: string)
    requires IsTricky(line)
    ensures StringEnd(line, 3) == 6 && StringEnd(line, 15) == 18 && StringEnd(line, 17) == 18
  {
    assert StringEndFrom(line, '\"', 5) == 6;
    assert StringEndFrom(line, '\"', 17) == 18;
  }

  lemma LongStringEnds(line: string)
    requires IsTricky(line)
    ensures StringEnd(line, 5) == 16
  {
    assert StringEndFrom(line, '\"', 15) == 16;
    assert StringEndFrom(line, '\"', 13) == 16;
    assert StringEndFrom(line, '\"', 11) == 16;
    assert StringEndFrom(line, '\"', 9) == 16;
    assert StringEndFrom(line, '\"', 7) == 16;
  }

  // its openers

  predicate StartsNoName(line: string, i: nat) {
    i < |line| ==> ToLower(line[i]) != 'p' && ToLower(line[i]) != 'r' && ToLower(line[i]) != 'm'
  }

  lemma FirstLetter(line: string, i: nat, word: string)
    ensures StartsFolded(line, i, word) && word != "" ==> i < |line| && ToLower(line[i]) == word[0]
  {
    if StartsFolded(line, i, word) && word != "" {
      assert ToLower(line[i + 0]) == word[0];
    }
  }

  lemma {:induction false} NoneOfNames(line: string, i: nat, names: seq<string>)
    requires forall k :: 0 <= k < |names| ==> names[k] != "" && (i < |line| ==> ToLower(line[i]) != names[k][0])
    ensures AnyName(line, i, names) == -1
  {
    if names != [] {
      FirstLetter(line, i, names[0]);
      NoneOfNames(line, i, names[1..]);
    }
  }

  lemma NoProperty(line: string, i: nat)
    requires StartsNoName(line, i) && StartsNoName(line, i + 1)
    ensures Property(line, i) == -1
  {
    assert PROPERTY_NAMES[0][0] == 'p' && PROPERTY_NAMES[1][0] == 'r' && PROPERTY_NAMES[2][0] == 'r' && PROPERTY_NAMES[3][0] == 'm';
    NoneOfNames(line, i, PROPERTY_NAMES);
    NoneOfNames(line, i + 1, PROPERTY_NAMES);
    hide AnyName;
  }

  lemma PatternAt7(line: string)
    requires IsTricky(line)
    ensures Property(line, 7) == 15
  {
    var word := PROPERTY_NAMES[0];
    assert word == "pattern";
    assert StartsFolded(line, 7, word);
    assert SkipSpaces(line, 14) == 14 && SkipSpaces(line, 15) == 15;
    assert Around(line, 14, ':') == 15;
    assert AfterName(line, 14) == 15;
  }

  // its turns

  /** A quote that opens no property is a string. */
  lemma QuoteTurn(line: string, i: nat, last: Option<char>, exhausted: bool)
    requires i < |line| && IsPlainQuote(line, i) && Property(line, i) == -1
    ensures TurnAt(line, i, Js, OpenersOf(Js), last, exhausted) ==
            Turn(StringEnd(line, i), Some(line[i]), exhausted, None)
  {
    hide Property, StringEnd;
  }

  lemma FirstTurns(line: string)
    requires IsTricky(line)
    ensures TurnAt(line, 0, Js, OpenersOf(Js), None, false) == Turn(1, Some('/'), true, None)
    ensures forall ex :: TurnAt(line, 1, Js, OpenersOf(Js), Some('/'), ex) == Turn(2, Some('['), ex, None)
  {
    FirstReadFails(line);
    hide RegexEnd, Property, JsCall;
  }

  lemma SlashAt2(line: string)
    requires IsTricky(line)
    ensures TurnAt(line, 2, Js, OpenersOf(Js), Some('['), true) == Turn(3, Some('/'), true, None)
    ensures TurnAt(line, 2, Js, OpenersOf(Js), Some('['), false) == Turn(5, Some('/'), false, None)
  {
    SecondReadCloses(line);
    hide RegexEnd, Property, JsCall;
  }

  lemma QuotesAt(line: string, last: Option<char>)
    requires IsTricky(line)
    ensures TurnAt(line, 3, Js, OpenersOf(Js), last, true) == Turn(6, Some('\"'), true, None)
    ensures TurnAt(line, 5, Js, OpenersOf(Js), last, false) == Turn(16, Some('\"'), false, None)
    ensures TurnAt(line, 17, Js, OpenersOf(Js), last, false) == Turn(18, Some('\"'), false, None)
  {
    StringsEnd(line);
    LongStringEnds(line);
    NoProperty(line, 3);
    NoProperty(line, 5);
    NoProperty(line, 17);
    hide Property, StringEnd, TurnAt, OpenersOf;
    QuoteTurn(line, 3, last, true);
    QuoteTurn(line, 5, last, false);
    QuoteTurn(line, 17, last, false);
  }

  lemma SpaceAndLetter(line: string)
    requires IsTricky(line)
    ensures TurnAt(line, 6, Js, OpenersOf(Js), Some('\"'), true) == Turn(7, Some('\"'), true, None)
    ensures TurnAt(line, 16, Js, OpenersOf(Js), Some('\"'), false) == Turn(17, Some('x'), false, None)
  {
    assert IdentifierEnd(line, 17) == 17;
    hide Property, JsCall, IdentifierEnd;
  }

  lemma LiteralAt15(line: string)
    requires IsTricky(line)
    ensures TurnAt(line, 7, Js, OpenersOf(Js), Some('\"'), true) == Turn(18, Some('\"'), true, Some(Span(15, 18)))
  {
    StringsEnd(line);
    PatternAt7(line);
    hide Property, JsCall, StringEnd;
    assert Opening(line, 7, Js, OpenersOf(Js)) == (15, false);
  }

  // its scans

  lemma ScanTakes(line: string, i: nat, last: Option<char>, exhausted: bool, turn: Turn)
    requires i < |line| && TurnAt(line, i, Js, OpenersOf(Js), last, exhausted) == turn
    requires turn.Turn? && turn.next > i
    ensures var rest := ScanFrom(line, Js, OpenersOf(Js), turn.next, turn.last, turn.exhausted);
            ScanFrom(line, Js, OpenersOf(Js), i, last, exhausted) ==
            if turn.span.Some? then [turn.span.value] + rest else rest
  {
    hide TurnAt, OpenersOf;
  }

  lemma PatientTakes(line: string, i: nat, last: Option<char>, turn: Turn)
    requires i < |line| && TurnAt(line, i, Js, OpenersOf(Js), last, false) == turn
    requires turn.Turn? && turn.next > i && turn.span.None?
    ensures SpansOf(PatientTurns(line, Js, OpenersOf(Js), i, last)) ==
            SpansOf(PatientTurns(line, Js, OpenersOf(Js), turn.next, turn.last))
  {
    hide TurnAt, OpenersOf;
    HeadSpans(TakenBy(i, turn)[0], PatientTurns(line, Js, OpenersOf(Js), turn.next, turn.last));
  }

  lemma NothingAfter(line: string, last: Option<char>, exhausted: bool)
    ensures ScanFrom(line, Js, OpenersOf(Js), |line|, last, exhausted) == []
    ensures PatientTurns(line, Js, OpenersOf(Js), |line|, last) == []
  {
  }

  lemma GivesUp(line: string)
    requires IsTricky(line)
    ensures RegexLiteral.Spans(line, Js) == [Span(15, 18)]
  {
    hide TurnAt, OpenersOf, ScanFrom;
    FirstTurns(line);
    SlashAt2(line);
    QuotesAt(line, Some('/'));
    SpaceAndLetter(line);
    LiteralAt15(line);
    ScanTakes(line, 0, None, false, Turn(1, Some('/'), true, None));
    ScanTakes(line, 1, Some('/'), true, Turn(2, Some('['), true, None));
    ScanTakes(line, 2, Some('['), true, Turn(3, Some('/'), true, None));
    ScanTakes(line, 3, Some('/'), true, Turn(6, Some('\"'), true, None));
    ScanTakes(line, 6, Some('\"'), true, Turn(7, Some('\"'), true, None));
    ScanTakes(line, 7, Some('\"'), true, Turn(18, Some('\"'), true, Some(Span(15, 18))));
    NothingAfter(line, Some('\"'), true);
  }

  lemma StaysPatient(line: string)
    requires IsTricky(line)
    ensures PatientSpans(line, Js) == []
  {
    hide TurnAt, OpenersOf, PatientTurns;
    FirstTurns(line);
    SlashAt2(line);
    QuotesAt(line, Some('/'));
    QuotesAt(line, Some('x'));
    SpaceAndLetter(line);
    PatientTakes(line, 0, None, Turn(1, Some('/'), true, None));
    PatientTakes(line, 1, Some('/'), Turn(2, Some('['), false, None));
    PatientTakes(line, 2, Some('['), Turn(5, Some('/'), false, None));
    PatientTakes(line, 5, Some('/'), Turn(16, Some('\"'), false, None));
    PatientTakes(line, 16, Some('\"'), Turn(17, Some('x'), false, None));
    PatientTakes(line, 17, Some('x'), Turn(18, Some('\"'), false, None));
    NothingAfter(line, Some('\"'), false);
  }
}
