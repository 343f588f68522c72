/** Splitting a migration file into statements: a character state machine, against a lexer
    written by recursion over what the text means: code, quoted text and line comments. */
module SplitSql {
  import opened VersionedTable

  predicate IsQuote(c: char) {
    c == '\'' || c == '"' || c == '`'
  }

  /** The characters `str.strip` removes. */
  predicate IsSpace(c: char) {
    || ('\t' <= c <= '\r') || ('\U{1c}' <= c <= ' ') || c == '\U{85}' || c == '\U{a0}' || c == '\U{1680}'
    || ('\U{2000}' <= c <= '\U{200a}') || c == '\U{2028}' || c == '\U{2029}' || c == '\U{202f}'
    || c == '\U{205f}' || c == '\U{3000}'
  }

  function StripLeft(s: string): string {
    if s != [] && IsSpace(s[0]) then StripLeft(s[1..]) else s
  }

  function StripRight(s: string): string {
    if s != [] && IsSpace(s[|s| - 1]) then StripRight(s[..|s| - 1]) else s
  }

  function Strip(s: string): string {
    StripRight(StripLeft(s))
  }

  // ---------------------------------------------------------------- the lexer

  predicate StartsComment(s: string) {
    |s| >= 2 && s[0] == '-' && s[1] == '-'
  }

  /** From the first newline on, or nothing. */
  function AfterComment(s: string): (r: string)
    ensures |r| <= |s|
  {
    if s == [] || s[0] == '\n' then s else AfterComment(s[1..])
  }

  /** Put text in front of the first piece. */
  function Before(text: string, pieces: seq<string>): (r: seq<string>)
    requires pieces != []
    ensures |r| == |pieces|
  {
    [text + pieces[0]] + pieces[1..]
  }

  /** The pieces between top-level semicolons of text that starts outside any quotes, with line
      comments removed. */
  function Code(s: string): (pieces: seq<string>)
    ensures pieces != []
    decreases |s|, 1
  {
    if s == [] then [""]
    else if StartsComment(s) then
      assert |AfterComment(s)| < |s| by { assert AfterComment(s) == AfterComment(s[1..]); }
      Code(AfterComment(s))
    else if s[0] == ';' then [""] + Code(s[1..])
    else if IsQuote(s[0]) then Before(s[..1], Quoted(s[1..], s[0]))
    else Before(s[..1], Code(s[1..]))
  }

  /** The same for text that starts inside a quotation opened by `q`. */
  function Quoted(s: string, q: char): (pieces: seq<string>)
    ensures pieces != []
    decreases |s|, 0
  {
    if s == [] then [""]
    else if s[0] == '\\' then
      if |s| == 1 then [s] else Before(s[..2], Quoted(s[2..], q))
    else if s[0] == q then Before(s[..1], Code(s[1..]))
    else Before(s[..1], Quoted(s[1..], q))
  }

  /** Stripped pieces, without blank ones. */
  function Statements(pieces: seq<string>): seq<string> {
    if pieces == [] then []
    else (if Strip(pieces[0]) == "" then [] else [Strip(pieces[0])]) + Statements(pieces[1..])
  }

  function Split(source: string): seq<string> {
    Statements(Code(source))
  }

  // ---------------------------------------------------------------- the state machine

  /** What the rest of the text contributes in each state of the machine. */
  function Rest(s: string, quote: Option<char>, escaped: bool): (pieces: seq<string>)
    ensures pieces != []
  {
    if quote.None? then Code(s)
    else if !escaped then Quoted(s, quote.value)
    else if s == [] then [""]
    else Before(s[..1], Quoted(s[1..], quote.value))
  }

  /** The statements still owed when `buffer` is pending and `s` is unread. */
  function Owed(buffer: string, s: string, quote: Option<char>, escaped: bool): seq<string> {
    Statements(Before(buffer, Rest(s, quote, escaped)))
  }

  function NextQuote(quote: Option<char>, c: char): Option<char> {
    if !IsQuote(c) then quote
    else if quote == Some(c) then None
    else if quote.None? then Some(c)
    else quote
  }

  lemma StatementsOfOne(piece: string)
    ensures Statements([piece]) == if Strip(piece) == "" then [] else [Strip(piece)]
  {
    assert [piece][1..] == [];
  }

  lemma BeforeNothing(pieces: seq<string>)
    requires pieces != []
    ensures Before("", pieces) == pieces
  {
    assert "" + pieces[0] == pieces[0];
  }

  lemma MoveChar(buffer: string, c: char, pieces: seq<string>)
    requires pieces != []
    ensures Before(buffer, Before([c], pieces)) == Before(buffer + [c], pieces)
  {
    assert buffer + ([c] + pieces[0]) == (buffer + [c]) + pieces[0];
  }

  lemma OwedAtEnd(buffer: string, quote: Option<char>, escaped: bool)
    ensures Owed(buffer, "", quote, escaped) == if Strip(buffer) == "" then [] else [Strip(buffer)]
  {
    assert buffer + "" == buffer;
    assert Before(buffer, [""]) == [buffer];
    StatementsOfOne(buffer);
  }

  lemma OwedAfterEscaped(buffer: string, s: string, q: char)
    requires s != []
    ensures Owed(buffer, s, Some(q), true) == Owed(buffer + [s[0]], s[1..], Some(q), false)
  {
    assert s[..1] == [s[0]];
    MoveChar(buffer, s[0], Quoted(s[1..], q));
  }

  lemma OwedAfterBackslash(buffer: string, s: string, q: char)
    requires s != [] && s[0] == '\\'
    ensures Owed(buffer, s, Some(q), false) == Owed(buffer + ['\\'], s[1..], Some(q), true)
  {
    if |s| == 1 {
      assert s == ['\\'] && s[1..] == [];
      assert buffer + s == (buffer + ['\\']) + "";
    } else {
      assert s[..2] == ['\\'] + s[1..][..1] && s[2..] == s[1..][1..];
      var p := Quoted(s[2..], q);
      assert buffer + (['\\'] + s[1..][..1] + p[0]) == (buffer + ['\\']) + (s[1..][..1] + p[0]);
    }
  }

  lemma OwedAfterComment(buffer: string, s: string)
    requires StartsComment(s)
    ensures Owed(buffer, s, None, false) == Owed(buffer, AfterComment(s), None, false)
  {
  }

  lemma OwedAfterSemicolon(buffer: string, s: string)
    requires s != [] && s[0] == ';'
    ensures Owed(buffer, s, None, false) == Statements([buffer]) + Owed("", s[1..], None, false)
  {
    assert Before(buffer, Code(s)) == [buffer + ""] + Code(s[1..]) && buffer + "" == buffer;
    assert ([buffer] + Code(s[1..]))[1..] == Code(s[1..]);
    StatementsOfOne(buffer);
    BeforeNothing(Code(s[1..]));
  }

  lemma OwedAfterChar(buffer: string, s: string, quote: Option<char>)
    requires s != [] && (quote.None? ==> s[0] != ';' && !StartsComment(s))
    requires quote.Some? ==> s[0] != '\\' && IsQuote(quote.value)
    ensures Owed(buffer, s, quote, false) == Owed(buffer + [s[0]], s[1..], NextQuote(quote, s[0]), false)
  {
    assert s[..1] == [s[0]];
    MoveChar(buffer, s[0], Rest(s[1..], NextQuote(quote, s[0]), false));
  }

  /** Advance to the newline that ends the line comment at `start`. */
  method SkipComment(source: string, start: nat) returns (index: nat)
    requires start < |source| && source[start] == '-'
    ensures start < index <= |source| && source[index..] == AfterComment(source[start..])
  {
    index := start;
    while index < |source| && source[index] != '\n'
      invariant start <= index <= |source| && AfterComment(source[index..]) == AfterComment(source[start..])
      invariant index == start ==> source[index] == '-'
    {
      assert source[index..][1..] == source[index + 1..];
      index := index + 1;
    }
  }

  datatype Machine = Machine(index: nat, buffer: string, quote: Option<char>, escaped: bool)

  predicate Valid(m: Machine, source: string) {
    && m.index <= |source|
    && (m.escaped ==> m.quote.Some?)
    && (m.quote.Some? ==> IsQuote(m.quote.value))
  }

  function Owes(m: Machine, source: string): seq<string>
    requires m.index <= |source|
  {
    Owed(m.buffer, source[m.index..], m.quote, m.escaped)
  }

  /** One turn of the machine: it moves forward, and may finish a statement. */
  method Turn(source: string, m: Machine) returns (next: Machine, finished: seq<string>)
    requires Valid(m, source) && m.index < |source|
    ensures Valid(next, source) && m.index < next.index
    ensures Owes(m, source) == finished + Owes(next, source)
  {
    var index, character, quote := m.index, source[m.index], m.quote;
    ghost var s := source[index..];
    assert s[0] == character && s[1..] == source[index + 1..];
    finished := [];
    if m.escaped {
      OwedAfterEscaped(m.buffer, s, quote.value);
      next := Machine(index + 1, m.buffer + [character], quote, false);
      return;
    }
    if character == '\\' && quote.Some? {
      OwedAfterBackslash(m.buffer, s, quote.value);
      next := Machine(index + 1, m.buffer + [character], quote, true);
      return;
    }
    if quote.None? && character == '-' && index + 1 < |source| && source[index + 1] == '-' {
      OwedAfterComment(m.buffer, s);
      index := SkipComment(source, index);
      next := m.(index := index);
      return;
    }
    if IsQuote(character) {
      if quote == Some(character) {
        quote := None;
      } else if quote.None? {
        quote := Some(character);
      }
    }
    if character == ';' && quote.None? {
      OwedAfterSemicolon(m.buffer, s);
      StatementsOfOne(m.buffer);
      var statement := Strip(m.buffer);
      if statement != "" { finished := [statement]; }
      next := Machine(index + 1, "", None, false);
    } else {
      OwedAfterChar(m.buffer, s, m.quote);
      next := Machine(index + 1, m.buffer + [character], quote, false);
    }
  }

  method SplitText(source: string) returns (statements: seq<string>)
    ensures statements == Split(source)
  {
    statements := [];
    var m := Machine(0, "", None, false);
    assert source[0..] == source;
    BeforeNothing(Code(source));
    while m.index < |source|
      invariant Valid(m, source) && Split(source) == statements + Owes(m, source)
      decreases |source| - m.index
    {
      ghost var before := statements;
      var next, finished := Turn(source, m);
      assert before + (finished + Owes(next, source)) == (before + finished) + Owes(next, source);
      m, statements := next, statements + finished;
    }
    assert source[m.index..] == [];
    OwedAtEnd(m.buffer, m.quote, m.escaped);
    var trailing := Strip(m.buffer);
    if trailing != "" {
      statements := statements + [trailing];
    }
  }

  // ---------------------------------------------------------------- clean statements

  /** Code without top-level semicolons or comments, ending outside quotes. */
  predicate Closed(p: string)
    decreases |p|, 1
  {
    p == [] || (!StartsComment(p) && p[0] != ';' && if IsQuote(p[0]) then ClosesQuote(p[1..], p[0]) else Closed(p[1..]))
  }

  predicate ClosesQuote(p: string, q: char)
    decreases |p|, 0
  {
    p != [] &&
    if p[0] == '\\' then |p| >= 2 && ClosesQuote(p[2..], q)
    else if p[0] == q then Closed(p[1..])
    else ClosesQuote(p[1..], q)
  }

  /** Code without top-level semicolons or comments; a quotation may be left open. */
  predicate Single(p: string)
    decreases |p|, 1
  {
    || p == []
    || (&& !StartsComment(p) && p[0] != ';'
        && if IsQuote(p[0]) then SingleQuoted(p[1..], p[0]) else Single(p[1..]))
  }

  predicate SingleQuoted(p: string, q: char)
    decreases |p|, 0
  {
    p == [] ||
    if p[0] == '\\' then |p| == 1 || SingleQuoted(p[2..], q)
    else if p[0] == q then Single(p[1..])
    else SingleQuoted(p[1..], q)
  }

  /** Every piece is free of top-level semicolons and comments, and all but the last are closed. */
  predicate CleanPieces(pieces: seq<string>) {
    && (forall i | 0 <= i < |pieces| :: Single(pieces[i]))
    && (forall i | 0 <= i < |pieces| - 1 :: Closed(pieces[i]))
  }

  /** `pieces` continues a quotation: its first piece starts inside the quotes. */
  predicate CleanTail(pieces: seq<string>, q: char) {
    && pieces != [] && SingleQuoted(pieces[0], q)
    && (1 < |pieces| ==> ClosesQuote(pieces[0], q))
    && CleanPieces(pieces[1..])
  }

  lemma {:induction false} CodeIsClean(s: string)
    ensures CleanPieces(Code(s))
    decreases |s|, 1
  {
    if s == [] {
    } else if StartsComment(s) {
      assert AfterComment(s) == AfterComment(s[1..]);
      CodeIsClean(AfterComment(s));
    } else if s[0] == ';' {
      CodeIsClean(s[1..]);
      CleanCons("", Code(s[1..]));
    } else if IsQuote(s[0]) {
      QuotedIsClean(s[1..], s[0]);
      var tail := Quoted(s[1..], s[0]);
      var p := s[..1] + tail[0];
      assert p[1..] == tail[0];
      assert !StartsComment(p);
      CleanCons(p, tail[1..]);
    } else {
      CodeIsClean(s[1..]);
      var tail := Code(s[1..]);
      var p := s[..1] + tail[0];
      assert p[1..] == tail[0];
      assert !StartsComment(p) by {
        if StartsComment(p) { CodeStartsWith(s[1..]); }
      }
      assert CleanPieces(tail[1..]);
      CleanCons(p, tail[1..]);
    }
  }

  /** The first piece of code starts with a dash only if the text does. */
  lemma CodeStartsWith(s: string)
    ensures Code(s)[0] != [] && s != [] && !StartsComment(s) ==> Code(s)[0][0] == s[0]
    ensures s == [] ==> Code(s)[0] == []
  {
  }

  lemma CleanCons(p: string, pieces: seq<string>)
    requires CleanPieces(pieces) && Single(p) && (pieces != [] ==> Closed(p))
    ensures CleanPieces([p] + pieces)
  {
  }

  lemma {:induction false} QuotedIsClean(s: string, q: char)
    requires IsQuote(q)
    ensures CleanTail(Quoted(s, q), q)
    decreases |s|, 0
  {
    if s == [] {
    } else if s[0] == '\\' {
      if |s| == 1 {
      } else {
        QuotedIsClean(s[2..], q);
        var tail := Quoted(s[2..], q);
        assert (s[..2] + tail[0])[2..] == tail[0];
      }
    } else if s[0] == q {
      CodeIsClean(s[1..]);
      var tail := Code(s[1..]);
      assert (s[..1] + tail[0])[1..] == tail[0];
    } else {
      QuotedIsClean(s[1..], q);
      var tail := Quoted(s[1..], q);
      assert (s[..1] + tail[0])[1..] == tail[0];
    }
  }

  // ---------------------------------------------------------------- splitting what was split

  /** Clean code is one piece. */
  lemma {:induction false} CodeOfSingle(p: string)
    requires Single(p)
    ensures Code(p) == [p]
    decreases |p|, 1
  {
    if p == [] {
    } else {
      assert p[..1] + p[1..] == p;
      if IsQuote(p[0]) { QuotedOfSingle(p[1..], p[0]); } else { CodeOfSingle(p[1..]); }
    }
  }

  lemma {:induction false} QuotedOfSingle(p: string, q: char)
    requires SingleQuoted(p, q)
    ensures Quoted(p, q) == [p]
    decreases |p|, 0
  {
    if p == [] {
    } else if p[0] == '\\' {
      if |p| >= 2 {
        assert p[..2] + p[2..] == p;
        QuotedOfSingle(p[2..], q);
      }
    } else {
      assert p[..1] + p[1..] == p;
      if p[0] == q { CodeOfSingle(p[1..]); } else { QuotedOfSingle(p[1..], q); }
    }
  }

  /** A closed piece ends at the semicolon after it, whatever follows. */
  lemma {:induction false} CodeOfClosed(p: string, r: string)
    requires Closed(p)
    ensures Code(p + ";" + r) == [p] + Code(r)
    decreases |p|, 1
  {
    var s := p + ";" + r;
    if p == [] {
      assert s[1..] == r;
    } else {
      assert s[1..] == p[1..] + ";" + r && s[..1] == p[..1] && p[..1] + p[1..] == p;
      assert !StartsComment(s);
      if IsQuote(p[0]) { QuotedOfClosed(p[1..], p[0], r); } else { CodeOfClosed(p[1..], r); }
      assert ([p[1..]] + Code(r))[1..] == Code(r);
    }
  }

  lemma {:induction false} QuotedOfClosed(p: string, q: char, r: string)
    requires ClosesQuote(p, q)
    ensures Quoted(p + ";" + r, q) == [p] + Code(r)
    decreases |p|, 0
  {
    var s := p + ";" + r;
    if p[0] == '\\' {
      assert s[2..] == p[2..] + ";" + r && s[..2] == p[..2] && p[..2] + p[2..] == p;
      QuotedOfClosed(p[2..], q, r);
      assert ([p[2..]] + Code(r))[1..] == Code(r);
    } else {
      assert s[1..] == p[1..] + ";" + r && s[..1] == p[..1] && p[..1] + p[1..] == p;
      if p[0] == q { CodeOfClosed(p[1..], r); } else { QuotedOfClosed(p[1..], q, r); }
      assert ([p[1..]] + Code(r))[1..] == Code(r);
    }
  }

  lemma {:induction false} DropLastKeepsClean(p: string)
    requires p != [] && IsSpace(p[|p| - 1])
    ensures Closed(p) ==> Closed(p[..|p| - 1])
    ensures Single(p) ==> Single(p[..|p| - 1])
    decreases |p|, 1
  {
    var n := |p| - 1;
    if n == 0 {
    } else {
      assert p[..n][1..] == p[1..][..n - 1];
      if IsQuote(p[0]) { DropLastInQuote(p[1..], p[0]); } else { DropLastKeepsClean(p[1..]); }
    }
  }

  lemma {:induction false} DropLastInQuote(p: string, q: char)
    requires p != [] && IsSpace(p[|p| - 1]) && IsQuote(q)
    ensures ClosesQuote(p, q) ==> ClosesQuote(p[..|p| - 1], q)
    ensures SingleQuoted(p, q) ==> SingleQuoted(p[..|p| - 1], q)
    decreases |p|, 0
  {
    var n := |p| - 1;
    if n == 0 {
      assert p[1..] == [];
    } else {
      assert p[..n][1..] == p[1..][..n - 1];
      if p[0] == '\\' {
        if n == 1 { assert p[2..] == []; assert !ClosesQuote(p[2..], q); }
        if n >= 2 {
          assert p[..n][2..] == p[2..][..n - 2];
          DropLastInQuote(p[2..], q);
        }
      } else if p[0] == q {
        DropLastKeepsClean(p[1..]);
      } else {
        DropLastInQuote(p[1..], q);
      }
    }
  }

  lemma StripKeepsClean(p: string)
    ensures Closed(p) ==> Closed(Strip(p))
    ensures Single(p) ==> Single(Strip(p))
    ensures Strip(Strip(p)) == Strip(p)
  {
    StripLeftFacts(p);
    StripRightFacts(StripLeft(p));
  }

  lemma {:induction false} StripLeftFacts(p: string)
    ensures Closed(p) ==> Closed(StripLeft(p))
    ensures Single(p) ==> Single(StripLeft(p))
    ensures StripLeft(p) != [] ==> !IsSpace(StripLeft(p)[0])
  {
    if p == [] || !IsSpace(p[0]) {
    } else {
      StripLeftFacts(p[1..]);
    }
  }

  lemma {:induction false} StripRightFacts(p: string)
    ensures Closed(p) ==> Closed(StripRight(p))
    ensures Single(p) ==> Single(StripRight(p))
    ensures StripRight(StripRight(p)) == StripRight(p)
    ensures p != [] && !IsSpace(p[0]) ==> StripRight(p) != [] && StripRight(p)[0] == p[0]
    ensures p == [] ==> StripRight(p) == []
  {
    if p == [] || !IsSpace(p[|p| - 1]) {
    } else {
      DropLastKeepsClean(p);
      StripRightFacts(p[..|p| - 1]);
    }
  }

  /** What splitting returns: stripped, non-blank statements without comments or top-level
      semicolons; only the last may leave a quotation open. */
  predicate Tidy(statements: seq<string>) {
    && (forall i | 0 <= i < |statements| :: statements[i] != "" && Strip(statements[i]) == statements[i])
    && CleanPieces(statements)
  }

  lemma {:induction false} StatementsAreTidy(pieces: seq<string>)
    requires CleanPieces(pieces)
    ensures Tidy(Statements(pieces))
  {
    if pieces == [] {
    } else {
      var p, rest := pieces[0], Statements(pieces[1..]);
      StatementsAreTidy(pieces[1..]);
      StripKeepsClean(p);
      if Strip(p) != "" {
        CleanCons(Strip(p), rest);
        assert forall i | 1 <= i < |[Strip(p)] + rest| :: ([Strip(p)] + rest)[i] == rest[i - 1];
      } else {
        assert [] + rest == rest;
      }
    }
  }

  function Join(statements: seq<string>): string {
    if statements == [] then ""
    else if |statements| == 1 then statements[0]
    else statements[0] + ";" + Join(statements[1..])
  }

  lemma {:induction false} SplitOfJoin(statements: seq<string>)
    requires Tidy(statements)
    ensures Split(Join(statements)) == statements
  {
    if statements == [] {
      assert Strip("") == "";
    } else if |statements| == 1 {
      CodeOfSingle(statements[0]);
      StatementsOfOne(statements[0]);
      assert statements == [statements[0]];
    } else {
      var rest := statements[1..];
      CodeOfClosed(statements[0], Join(rest));
      SplitOfJoin(rest);
      assert ([statements[0]] + Code(Join(rest)))[1..] == Code(Join(rest));
    }
  }

  // ---------------------------------------------------------------- quotes, comments, blanks

  /** Text without semicolons, quotes and double dashes is one closed piece. */
  predicate Plain(p: string) {
    && (forall i | 0 <= i < |p| :: p[i] != ';' && p[i] != '\'' && p[i] != '"' && p[i] != '`')
    && forall i | 0 <= i < |p| - 1 :: p[i] != '-' || p[i + 1] != '-'
  }

  lemma {:induction false} PlainIsClosed(p: string)
    requires Plain(p)
    ensures Closed(p)
  {
    if p == [] {
    } else {
      assert Plain(p[1..]) by {
        assert forall i | 0 <= i < |p[1..]| :: p[1..][i] == p[i + 1];
      }
      PlainIsClosed(p[1..]);
      assert !StartsComment(p) by {
        assert |p| >= 2 ==> p[0] != '-' || p[0 + 1] != '-';
      }
    }
  }

  /** Outside quotes a semicolon ends a statement. */
  lemma SemicolonsSplit(p: string, rest: string)
    requires Plain(p)
    ensures Split(p + ";" + rest) == (if Strip(p) == "" then [] else [Strip(p)]) + Split(rest)
  {
    PlainIsClosed(p);
    CodeOfClosed(p, rest);
    assert ([p] + Code(rest))[1..] == Code(rest);
  }

  /** Text inside quotes `q`: any quote inside is another one or is escaped. */
  predicate Inside(p: string, q: char) {
    forall c | c in p :: c != q && c != '\\'
  }

  lemma {:induction false} InsideCloses(p: string, q: char, r: string)
    requires Inside(p, q) && ClosesQuote(r, q)
    ensures ClosesQuote(p + r, q)
  {
    if p == [] {
      assert p + r == r;
    } else {
      assert (p + r)[0] == p[0] && p[0] in p && forall c | c in p[1..] :: c in p;
      assert (p + r)[1..] == p[1..] + r;
      InsideCloses(p[1..], q, r);
    }
  }

  lemma QuotedIsClosed(q: char, a: string)
    requires IsQuote(q) && Inside(a, q)
    ensures Closed([q] + a + [q]) && ClosesQuote(a + [q], q)
  {
    assert [q][1..] == [] && ClosesQuote([q], q);
    InsideCloses(a, q, [q]);
    assert ([q] + a + [q])[1..] == a + [q];
  }

  lemma EscapedIsClosed(q: char, a: string, b: string)
    requires IsQuote(q) && Inside(a, q) && Inside(b, q)
    ensures Closed([q] + a + ['\\', q] + b + [q])
  {
    QuotedIsClosed(q, b);
    var tail := ['\\', q] + b + [q];
    assert tail[2..] == b + [q];
    InsideCloses(a, q, tail);
    assert ([q] + a + ['\\', q] + b + [q])[1..] == a + tail;
  }

  /** Between single quotes, double quotes or backquotes, semicolons, dashes and the other quotes
      mean nothing, and a backslash takes its meaning from the quote after it. */
  lemma QuotesHideEverything(q: char, a: string, b: string, rest: string)
    requires (q == '\'' || q == '"' || q == '`') && Inside(a, q) && Inside(b, q)
    ensures Split([q] + a + [q] + ";" + rest) == [[q] + a + [q]] + Split(rest)
    ensures Split([q] + a + ['\\', q] + b + [q] + ";" + rest) == [[q] + a + ['\\', q] + b + [q]] + Split(rest)
  {
    QuotedIsClosed(q, a);
    ClosedStatement([q] + a + [q], rest);
    EscapedIsClosed(q, a, b);
    ClosedStatement([q] + a + ['\\', q] + b + [q], rest);
  }

  lemma QuotedTextIsTidy(p: string)
    requires p != [] && IsQuote(p[0]) && IsQuote(p[|p| - 1])
    ensures Strip(p) == p
  {
    assert StripLeft(p) == p;
  }

  lemma ClosedStatement(p: string, rest: string)
    requires Closed(p) && p != [] && IsQuote(p[0]) && IsQuote(p[|p| - 1])
    ensures Split(p + ";" + rest) == [p] + Split(rest)
  {
    QuotedTextIsTidy(p);
    CodeOfClosed(p, rest);
    var pieces := [p] + Code(rest);
    assert pieces[0] == p && pieces[1..] == Code(rest);
  }

  lemma {:induction false} CommentEnds(text: string, rest: string)
    requires '\n' !in text
    ensures AfterComment(text + "\n" + rest) == "\n" + rest
  {
    if text == [] {
      assert text + "\n" + rest == "\n" + rest;
    } else {
      assert (text + "\n" + rest)[1..] == text[1..] + "\n" + rest;
      CommentEnds(text[1..], rest);
    }
  }

  /** Two dashes outside quotes hide everything up to the end of the line, which stays. */
  lemma DashesHideTheLine(text: string, rest: string)
    requires '\n' !in text
    ensures Split("--" + text + "\n" + rest) == Split("\n" + rest)
  {
    var comment := "--" + text;
    assert comment + "\n" + rest == "--" + text + "\n" + rest;
    assert forall c | c in comment :: c == '-' || c in text;
    CommentEnds(comment, rest);
  }

  lemma {:induction false} StripLeftDrops(p: string) returns (left: string)
    ensures p == left + StripLeft(p) && forall i | 0 <= i < |left| :: IsSpace(left[i])
    ensures StripLeft(p) != [] ==> !IsSpace(StripLeft(p)[0])
  {
    if p == [] || !IsSpace(p[0]) {
      left := [];
    } else {
      left := StripLeftDrops(p[1..]);
      left := [p[0]] + left;
    }
  }

  lemma {:induction false} StripRightDrops(p: string) returns (right: string)
    ensures p == StripRight(p) + right && forall i | 0 <= i < |right| :: IsSpace(right[i])
    ensures StripRight(p) != [] ==> !IsSpace(StripRight(p)[|StripRight(p)| - 1])
    ensures p != [] && !IsSpace(p[0]) ==> StripRight(p) != [] && StripRight(p)[0] == p[0]
  {
    if p == [] || !IsSpace(p[|p| - 1]) {
      right := [];
    } else {
      right := StripRightDrops(p[..|p| - 1]);
      right := right + [p[|p| - 1]];
    }
  }

  lemma SpacesAreBlank(c: char)
    ensures c == ' ' || c == '\t' || c == '\n' || c == '\r' ==> IsSpace(c)
    ensures IsSpace(c) ==> c < '!' || '~' < c
  {
  }

  /** Blanks around a statement are dropped, and no printable character is: what is left starts
      and ends with something other than a blank. */
  lemma StripDropsBlanks(p: string) returns (left: string, right: string)
    ensures p == left + Strip(p) + right
    ensures forall i | 0 <= i < |left| :: left[i] < '!' || '~' < left[i]
    ensures forall i | 0 <= i < |right| :: right[i] < '!' || '~' < right[i]
    ensures Strip(p) != "" ==> Strip(p)[0] !in " \t\n\r" && Strip(p)[|Strip(p)| - 1] !in " \t\n\r"
  {
    left := StripLeftDrops(p);
    right := StripRightDrops(StripLeft(p));
    forall i | 0 <= i < |left| ensures left[i] < '!' || '~' < left[i] { SpacesAreBlank(left[i]); }
    forall i | 0 <= i < |right| ensures right[i] < '!' || '~' < right[i] { SpacesAreBlank(right[i]); }
    if Strip(p) != "" {
      SpacesAreBlank(Strip(p)[0]);
      SpacesAreBlank(Strip(p)[|Strip(p)| - 1]);
    }
  }

  /** Splitting is a projection: no result is blank, and splitting the semicolon-join of a
      result gives the result again. */
  lemma SplitIsAProjection(source: string)
    ensures Tidy(Split(source))
    ensures Split(Join(Split(source))) == Split(source)
  {
    CodeIsClean(source);
    StatementsAreTidy(Code(source));
    SplitOfJoin(Split(source));
  }
}
