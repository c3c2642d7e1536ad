/** The splitter that cuts schema.sql into statements: quotes, line comments, semicolons. */
module SqlSplitter {
  import opened Numbers

  datatype Quote = Open | Single | Double

  function TrimLeft(s: string): (r: string)
    ensures r == "" || !IsSpace(r[0])
  {
    if s != "" && IsSpace(s[0]) then TrimLeft(s[1..]) else s
  }

  function TrimRight(s: string): (r: string)
    ensures r == "" || !IsSpace(r[|r| - 1])
    ensures |r| <= |s| && (r != "" ==> r[0] == s[0])
  {
    if s != "" && IsSpace(s[|s| - 1]) then TrimRight(s[..|s| - 1]) else s
  }

  function Trim(s: string): (r: string)
    ensures r == "" || (!IsSpace(r[0]) && !IsSpace(r[|r| - 1]))
  {
    TrimRight(TrimLeft(s))
  }

  /** The white space of the C locale. */
  predicate White(c: char) {
    c in " \t\n\r" || c as int in {11, 12}
  }

  /** Neither end is white space. */
  predicate Trimmed(s: string) {
    s != "" && !White(s[0]) && !White(s[|s| - 1])
  }

  predicate StartsComment(rest: string) {
    rest != "" && (rest[0] == '#' || (rest[0] == '-' && |rest| > 1 && rest[1] == '-'))
  }

  /** What follows the line break that ends the current line. */
  function SkipLine(rest: string): (r: string)
    ensures rest != "" ==> |r| < |rest|
    ensures rest == "" ==> r == ""
  {
    if rest == "" then "" else if rest[0] == '\n' then rest[1..] else SkipLine(rest[1..])
  }

  function Toggle(q: Quote, c: char): Quote {
    match q
    case Open => if c == '\'' then Single else if c == '"' then Double else Open
    case Single => if c == '\'' then Open else Single
    case Double => if c == '"' then Open else Double
  }

  function Statement(current: string): (r: seq<string>)
    ensures forall s | s in r :: Trimmed(s)
  {
    if Trim(current) == "" then [] else [Trim(current)]
  }

  /** The statements of `rest`, read with `current` pending and the quote state `q`. */
  function Split(rest: string, current: string, q: Quote): seq<string>
    decreases |rest|
  {
    if rest == "" then Statement(current)
    else if q.Open? && StartsComment(rest) then Split(SkipLine(rest), current + "\n", q)
    else if rest[0] == ';' && q.Open? then Statement(current) + Split(rest[1..], "", q)
    else Split(rest[1..], current + [rest[0]], Toggle(q, rest[0]))
  }

  ghost function From(s: string, i: nat): string {
    if i < |s| then s[i..] else ""
  }

  /** split_sql_statements, with its two quote flags. */
  method SplitStatements(script: string) returns (statements: seq<string>)
    ensures statements == Split(script, "", Open)
  {
    statements := [];
    var current := "";
    var inSingle, inDouble := false, false;
    var i := 0;
    while i < |script|
      invariant !(inSingle && inDouble)
      invariant Split(script, "", Open) ==
                statements + Split(From(script, i), current, if inSingle then Single else if inDouble then Double else Open)
    {
      hide Statement, SkipLine;
      ghost var rest := script[i..];
      assert rest[1..] == From(script, i + 1);
      var ch := script[i];
      var next := if i + 1 < |script| then script[i + 1] else '\0';
      if !inSingle && !inDouble && ((ch == '-' && next == '-') || ch == '#') {
        i := EndOfLine(script, i);
        current := current + "\n";
        i := i + 1;
        continue;
      }
      if ch == '\'' && !inDouble {
        inSingle := !inSingle;
      } else if ch == '"' && !inSingle {
        inDouble := !inDouble;
      }
      if ch == ';' && !inSingle && !inDouble {
        ghost var before := statements;
        var found := Statement(current);
        statements := statements + found;
        current := "";
        assert (before + found) + Split(rest[1..], "", Open) == before + (found + Split(rest[1..], "", Open));
      } else {
        current := current + [ch];
      }
      i := i + 1;
    }
    statements := statements + Statement(current);
  }

  method EndOfLine(script: string, start: nat) returns (i: nat)
    requires start < |script|
    ensures start <= i <= |script|
    ensures From(script, i + 1) == SkipLine(script[start..])
  {
    i := start;
    while i < |script| && script[i] != '\n'
      invariant start <= i <= |script|
      invariant SkipLine(script[i..]) == SkipLine(script[start..])
    {
      assert script[i..][1..] == script[i + 1..];
      i := i + 1;
    }
    if i < |script| {
      assert script[i..][1..] == script[i + 1..];
    }
  }

  // ---- Every statement is trimmed and not empty ---------------------------

  lemma {:induction false} OutputsTrimmed(rest: string, current: string, q: Quote)
    ensures forall s | s in Split(rest, current, q) :: Trimmed(s)
    decreases |rest|
  {
    if rest == "" {
    } else if q.Open? && StartsComment(rest) {
      OutputsTrimmed(SkipLine(rest), current + "\n", q);
    } else if rest[0] == ';' && q.Open? {
      OutputsTrimmed(rest[1..], "", q);
    } else {
      OutputsTrimmed(rest[1..], current + [rest[0]], Toggle(q, rest[0]));
    }
  }

  // ---- What a script means -------------------------------------------------

  /** A script character by character: quoted text, line comments, semicolons and everything else. */
  datatype Token =
    | Bare(c: char)
    | Quoted(mark: char, body: string)
    | Semicolon
    | Comment(start: string, body: string)
  {
    function Text(): string {
      match this
      case Bare(c) => [c]
      case Quoted(mark, body) => [mark] + body + [mark]
      case Semicolon => ";"
      case Comment(start, body) => start + body + "\n"
    }

    predicate Valid() {
      match this
      case Bare(c) => c !in "'\";#"
      case Quoted(mark, body) => mark in "'\"" && mark !in body
      case Semicolon => true
      case Comment(start, body) => start in ["#", "--"] && '\n' !in body
    }
  }

  /** How a script may end: after a token, inside a quoted text, or inside a comment. */
  datatype End = Closed | OpenQuote(mark: char, body: string) | OpenComment(start: string, body: string)
  {
    function Text(): string {
      match this
      case Closed => ""
      case OpenQuote(mark, body) => [mark] + body
      case OpenComment(start, body) => start + body
    }

    predicate Valid() {
      match this
      case Closed => true
      case OpenQuote(mark, body) => mark in "'\"" && mark !in body
      case OpenComment(start, body) => start in ["#", "--"] && '\n' !in body
    }

    /** What it adds to the last statement. */
    function Left(): string {
      match this
      case Closed => ""
      case OpenQuote(mark, body) => [mark] + body
      case OpenComment(_, _) => "\n"
    }
  }

  function Script(tokens: seq<Token>, end: End): string {
    if tokens == [] then end.Text() else tokens[0].Text() + Script(tokens[1..], end)
  }

  /** A bare hyphen with no hyphen behind it, or another token. */
  predicate Apart(token: Token, rest: string) {
    token == Bare('-') && rest != "" ==> rest[0] != '-'
  }

  /** Every token is what it says, and no bare hyphen stands in front of another hyphen. */
  predicate Tokens(tokens: seq<Token>, end: End)
    decreases |tokens|
  {
    if tokens == [] then end.Valid()
    else
      && tokens[0].Valid()
      && Apart(tokens[0], Script(tokens[1..], end))
      && Tokens(tokens[1..], end)
  }

  predicate AllWhite(s: string) {
    forall c | c in s :: White(c)
  }

  /** `core` is what remains of `s` when white space is taken off both ends. */
  ghost predicate Core(s: string, core: string) {
    && (exists before, after :: AllWhite(before) && AllWhite(after) && s == before + core + after)
    && (core == "" || Trimmed(core))
  }

  /** The stretches between semicolons, each comment worth a line break; the first one starts with `current`. */
  function Stretches(tokens: seq<Token>, end: End, current: string): (r: seq<string>)
    ensures r != []
    decreases |tokens|
  {
    if tokens == [] then [current + end.Left()]
    else match tokens[0]
      case Semicolon => [current] + Stretches(tokens[1..], end, "")
      case Comment(_, _) => Stretches(tokens[1..], end, current + "\n")
      case _ => Stretches(tokens[1..], end, current + tokens[0].Text())
  }

  /** The statements are the cores of the stretches, in order, without the empty ones. */
  ghost predicate CoresOf(stretches: seq<string>, statements: seq<string>)
    decreases |stretches|
  {
    if stretches == [] then statements == []
    else if Core(stretches[0], "") then CoresOf(stretches[1..], statements)
    else statements != [] && Core(stretches[0], statements[0]) && CoresOf(stretches[1..], statements[1..])
  }

  lemma WhiteIsSpace(c: char)
    ensures White(c) <==> IsSpace(c)
  {
  }

  lemma {:induction false} TrimLeftCore(s: string) returns (before: string)
    ensures AllWhite(before) && s == before + TrimLeft(s)
  {
    before := "";
    if s != "" && IsSpace(s[0]) {
      WhiteIsSpace(s[0]);
      before := TrimLeftCore(s[1..]);
      before := [s[0]] + before;
    }
  }

  lemma {:induction false} TrimRightCore(s: string) returns (after: string)
    ensures AllWhite(after) && s == TrimRight(s) + after
  {
    after := "";
    if s != "" && IsSpace(s[|s| - 1]) {
      WhiteIsSpace(s[|s| - 1]);
      after := TrimRightCore(s[..|s| - 1]);
      after := after + [s[|s| - 1]];
    }
  }

  lemma TrimIsCore(s: string)
    ensures Core(s, Trim(s))
  {
    var before := TrimLeftCore(s);
    var after := TrimRightCore(TrimLeft(s));
    var core := Trim(s);
    assert s == before + core + after;
    if core != "" {
      WhiteIsSpace(core[0]);
      WhiteIsSpace(core[|core| - 1]);
    }
  }

  /** There is only one. */
  lemma CoreIsTrim(s: string, core: string)
    requires Core(s, core)
    ensures core == Trim(s)
  {
    TrimIsCore(s);
    CoresAgree(s, core, Trim(s));
  }

  lemma CoreInPlace(s: string, before: string, core: string, after: string)
    requires AllWhite(before) && AllWhite(after) && s == before + core + after && (core == "" || Trimmed(core))
    ensures var i, j := |before|, |before| + |core|;
            && core == s[i..j] && (i < j ==> !White(s[i]) && !White(s[j - 1]))
            && forall k | 0 <= k < |s| && !(i <= k < j) :: White(s[k])
  {
    hide White;
    assert forall k | 0 <= k < |before| :: s[k] == before[k];
    assert forall k | |before| + |core| <= k < |s| :: s[k] == after[k - |before| - |core|];
  }

  lemma CoresAgree(s: string, one: string, other: string)
    requires Core(s, one) && Core(s, other)
    ensures one == other
  {
    var a, b :| AllWhite(a) && AllWhite(b) && s == a + one + b;
    var c, d :| AllWhite(c) && AllWhite(d) && s == c + other + d;
    CoreInPlace(s, a, one, b);
    CoreInPlace(s, c, other, d);
    hide White, AllWhite, Trimmed;
    assert |one| == |other| && (one != "" ==> |a| == |c|);
  }

  lemma {:induction false} InsideQuotes(body: string, x: string, current: string, q: Quote)
    requires (q.Single? && '\'' !in body) || (q.Double? && '"' !in body)
    ensures Split(body + x, current, q) == Split(x, current + body, q)
  {
    hide Statement, SkipLine;
    if body == "" {
      assert body + x == x && current + body == current;
    } else {
      assert (body + x)[1..] == body[1..] + x && (body + x)[0] == body[0];
      assert body[0] in body;
      assert (current + [body[0]]) + body[1..] == current + body;
      InsideQuotes(body[1..], x, current + [body[0]], q);
    }
  }

  lemma QuotedScanned(token: Token, x: string, current: string)
    requires token.Quoted? && token.Valid()
    ensures Split(token.Text() + x, current, Open) == Split(x, current + token.Text(), Open)
  {
    var mark, body := token.mark, token.body;
    var q := if mark == '\'' then Single else Double;
    var rest := body + ([mark] + x);
    assert token.Text() + x == [mark] + rest;
    FirstChar(mark, rest, current);
    InsideQuotes(body, [mark] + x, current + [mark], q);
    ClosingMark(mark, x, current + [mark] + body, q);
    assert current + [mark] + body + [mark] == current + token.Text();
  }

  lemma FirstChar(c: char, rest: string, current: string)
    requires c !in ";#" && (c == '-' ==> rest == "" || rest[0] != '-')
    ensures Split([c] + rest, current, Open) ==
            Split(rest, current + [c], if c == '\'' then Single else if c == '"' then Double else Open)
  {
    assert ([c] + rest)[1..] == rest;
    hide Statement, SkipLine;
  }

  lemma ClosingMark(mark: char, rest: string, current: string, q: Quote)
    requires (q.Single? && mark == '\'') || (q.Double? && mark == '"')
    ensures Split([mark] + rest, current, q) == Split(rest, current + [mark], Open)
  {
    assert ([mark] + rest)[1..] == rest;
    hide Statement, SkipLine;
  }

  lemma {:induction false} SkipOneLine(c: string, b: string)
    requires '\n' !in c
    ensures SkipLine(c + "\n" + b) == b
  {
    if c == "" {
      assert (c + "\n" + b)[1..] == b;
    } else {
      assert (c + "\n" + b)[1..] == c[1..] + "\n" + b;
      SkipOneLine(c[1..], b);
    }
  }

  lemma CommentScanned(token: Token, x: string, current: string)
    requires token.Comment? && token.Valid()
    ensures Split(token.Text() + x, current, Open) == Split(x, current + "\n", Open)
  {
    var line := token.start + token.body;
    assert token.Text() + x == line + "\n" + x;
    assert line != "" && line[0] == token.start[0] && (|token.start| == 2 ==> line[1] == '-');
    hide Statement;
    SkipOneLine(line, x);
    hide SkipLine;
  }

  lemma SplitAtSemicolon(current: string, rest: string)
    ensures Split(";" + rest, current, Open) == Statement(current) + Split(rest, "", Open)
  {
    assert (";" + rest)[1..] == rest;
  }

  function StatementsOf(stretches: seq<string>): seq<string> {
    if stretches == [] then [] else Statement(stretches[0]) + StatementsOf(stretches[1..])
  }

  lemma EndScanned(end: End, current: string)
    requires end.Valid()
    ensures Split(end.Text(), current, Open) == Statement(current + end.Left())
  {
    match end
    case Closed =>
      assert current + "" == current;
    case OpenQuote(mark, body) =>
      var q := if mark == '\'' then Single else Double;
      hide Statement, SkipLine;
      FirstChar(mark, body, current);
      assert body + "" == body;
      InsideQuotes(body, "", current + [mark], q);
      assert current + [mark] + body == current + end.Left();
    case OpenComment(start, body) =>
      var line := start + body;
      assert line != "" && line[0] == start[0] && (|start| == 2 ==> line[1] == '-');
      NoLineFollows(line);
      hide Statement, SkipLine;
  }

  lemma {:induction false} NoLineFollows(line: string)
    requires '\n' !in line
    ensures SkipLine(line) == ""
  {
    if line != "" {
      assert line[0] in line;
      NoLineFollows(line[1..]);
    }
  }

  lemma {:induction false} SplitsStretches(tokens: seq<Token>, end: End, current: string)
    requires Tokens(tokens, end)
    ensures Split(Script(tokens, end), current, Open) == StatementsOf(Stretches(tokens, end, current))
    decreases |tokens|
  {
    hide Statement, Split;
    if tokens == [] {
      EndScanned(end, current);
      assert [current + end.Left()][1..] == [];
    } else {
      var token, x := tokens[0], Script(tokens[1..], end);
      match token
      case Semicolon =>
        SplitAtSemicolon(current, x);
        SplitsStretches(tokens[1..], end, "");
        assert Stretches(tokens, end, current)[1..] == Stretches(tokens[1..], end, "");
      case Comment(_, _) =>
        CommentScanned(token, x, current);
        SplitsStretches(tokens[1..], end, current + "\n");
      case Quoted(_, _) =>
        QuotedScanned(token, x, current);
        SplitsStretches(tokens[1..], end, current + token.Text());
      case Bare(c) =>
        FirstChar(c, x, current);
        SplitsStretches(tokens[1..], end, current + token.Text());
    }
  }

  lemma {:induction false} StatementsAreCores(stretches: seq<string>)
    ensures CoresOf(stretches, StatementsOf(stretches))
  {
    if stretches != [] {
      var s, rest := stretches[0], StatementsOf(stretches[1..]);
      StatementsAreCores(stretches[1..]);
      TrimIsCore(s);
      if Core(s, "") {
        CoreIsTrim(s, "");
      }
      hide Core, Trim;
      if Trim(s) == "" {
        assert StatementsOf(stretches) == rest;
      } else {
        assert StatementsOf(stretches) == [Trim(s)] + rest && ([Trim(s)] + rest)[1..] == rest;
      }
    }
  }

  /**
   * Whatever tokens a script is made of, it is split into the stretches between its semicolons, with
   * comments worth a line break and quoted text untouched, trimmed, the empty ones left out.
   */
  lemma SplitMeans(tokens: seq<Token>, end: End)
    requires Tokens(tokens, end)
    ensures CoresOf(Stretches(tokens, end, ""), Split(Script(tokens, end), "", Open))
  {
    SplitsStretches(tokens, end, "");
    StatementsAreCores(Stretches(tokens, end, ""));
  }

  // ---- Every script is made of tokens -----------------------------------------

  lemma {:induction false} FirstIndex(s: string, c: char) returns (i: nat)
    ensures i <= |s| && c !in s[..i] && (i < |s| ==> s[i] == c)
  {
    i := 0;
    if s != "" && s[0] != c {
      i := FirstIndex(s[1..], c);
      i := i + 1;
      assert s[..i] == [s[0]] + s[1..][..i - 1];
    }
  }

  lemma Regroup(a: string, b: string, c: string)
    ensures a + (b + c) == a + b + c
  {
  }

  lemma TokenAhead(token: Token, tokens: seq<Token>, end: End)
    requires token.Valid() && Apart(token, Script(tokens, end)) && Tokens(tokens, end)
    ensures Tokens([token] + tokens, end) && Script([token] + tokens, end) == token.Text() + Script(tokens, end)
  {
    hide Token.Text, Token.Valid, Apart;
    assert ([token] + tokens)[1..] == tokens;
  }

  lemma {:induction false} EveryScript(script: string) returns (tokens: seq<Token>, end: End)
    ensures Tokens(tokens, end) && Script(tokens, end) == script
    decreases |script|
  {
    tokens, end := [], Closed;
    if script != "" {
      var c, rest := script[0], script[1..];
      if c == '#' || (c == '-' && rest != "" && rest[0] == '-') {
        var start := if c == '#' then "#" else "--";
        var body := script[|start|..];
        assert script == start + body;
        var i := FirstIndex(body, '\n');
        tokens, end := Behind(script, start, body, i, Comment(start, body[..i]), OpenComment(start, body));
      } else if c == '\'' || c == '"' {
        assert script == [c] + rest;
        var i := FirstIndex(rest, c);
        tokens, end := Behind(script, [c], rest, i, Quoted(c, rest[..i]), OpenQuote(c, rest));
      } else {
        tokens, end := EveryScript(rest);
        var token := if c == ';' then Semicolon else Bare(c);
        assert script == token.Text() + rest;
        assert token.Valid() && Apart(token, rest);
        TokenAhead(token, tokens, end);
        tokens := [token] + tokens;
      }
    }
  }

  /** A token that ends at index i of the body, or the end of the script. */
  lemma Behind(script: string, start: string, body: string, i: nat, token: Token, open: End)
    returns (tokens: seq<Token>, end: End)
    requires start != "" && script == start + body && i <= |body|
    requires i < |body| ==> token.Valid() && !token.Bare? && token.Text() == start + body[..i] + [body[i]]
    requires i == |body| ==> open.Valid() && open.Text() == script
    ensures Tokens(tokens, end) && Script(tokens, end) == script
    decreases |script|, 0
  {
    if i < |body| {
      hide Token.Text, Token.Valid, Tokens, Script;
      tokens, end := EveryScript(body[i + 1..]);
      TokenAhead(token, tokens, end);
      tokens := [token] + tokens;
      SplitAt(start, body, i);
    } else {
      tokens, end := [], open;
    }
  }

  lemma SplitAt(start: string, body: string, i: nat)
    requires i < |body|
    ensures start + body == start + body[..i] + [body[i]] + body[i + 1..]
  {
    assert body == body[..i] + [body[i]] + body[i + 1..];
  }

  // ---- Comments -----------------------------------------------------------------

  lemma {:induction false} StretchesSwap(a: seq<Token>, one: Token, other: Token, b: seq<Token>, end: End, current: string)
    requires one.Comment? && other == Bare('\n')
    ensures Stretches(a + [one] + b, end, current) == Stretches(a + [other] + b, end, current)
    decreases |a|
  {
    var x, y := a + [one] + b, a + [other] + b;
    if a == [] {
      assert x[1..] == b && y[1..] == b;
    } else {
      assert x[1..] == a[1..] + [one] + b && y[1..] == a[1..] + [other] + b;
      match a[0]
      case Semicolon => StretchesSwap(a[1..], one, other, b, end, "");
      case Comment(_, _) => StretchesSwap(a[1..], one, other, b, end, current + "\n");
      case _ => StretchesSwap(a[1..], one, other, b, end, current + a[0].Text());
    }
  }

  /** Anywhere outside quotes a line comment, whatever it contains, is worth exactly a line break. */
  lemma CommentIsNewline(a: seq<Token>, comment: Token, b: seq<Token>, end: End)
    requires comment.Comment?
    requires Tokens(a + [comment] + b, end) && Tokens(a + [Bare('\n')] + b, end)
    ensures Split(Script(a + [comment] + b, end), "", Open) == Split(Script(a + [Bare('\n')] + b, end), "", Open)
  {
    SplitsStretches(a + [comment] + b, end, "");
    SplitsStretches(a + [Bare('\n')] + b, end, "");
    StretchesSwap(a, comment, Bare('\n'), b, end, "");
  }

  // ---- Round trip ---------------------------------------------------------

  /** White space and whole comment lines. */
  predicate Gap(tokens: seq<Token>) {
    forall token | token in tokens :: token.Valid() && (token.Comment? || (token.Bare? && White(token.c)))
  }

  /** Quoted pieces and bare characters that begin and end with no white space. */
  predicate Sentence(tokens: seq<Token>) {
    && Tokens(tokens, Closed) && Trimmed(Script(tokens, Closed))
    && forall token | token in tokens :: token.Quoted? || token.Bare?
  }

  datatype Item = Item(gap: seq<Token>, statement: seq<Token>)
  {
    predicate Valid() {
      Gap(gap) && Sentence(statement)
    }
  }

  function Rendered(items: seq<Item>, tail: seq<Token>): seq<Token> {
    if items == [] then tail
    else items[0].gap + (items[0].statement + ([Semicolon] + Rendered(items[1..], tail)))
  }

  function Texts(items: seq<Item>): seq<string> {
    if items == [] then [] else [Script(items[0].statement, Closed)] + Texts(items[1..])
  }

  /** A gap adds white space to the stretch it stands in. */
  lemma {:induction false} GapAddsWhite(gap: seq<Token>, rest: seq<Token>, end: End, current: string) returns (white: string)
    requires Gap(gap)
    ensures AllWhite(white) && Stretches(gap + rest, end, current) == Stretches(rest, end, current + white)
    decreases |gap|
  {
    white := "";
    if gap == [] {
      assert gap + rest == rest && current + "" == current;
    } else {
      assert gap[0] in gap && (gap + rest)[1..] == gap[1..] + rest;
      var first := if gap[0].Comment? then "\n" else gap[0].Text();
      white := GapAddsWhite(gap[1..], rest, end, current + first);
      assert current + first + white == current + (first + white);
      white := first + white;
    }
  }

  /** A statement adds itself. */
  lemma {:induction false} StatementAdds(tokens: seq<Token>, rest: seq<Token>, end: End, current: string)
    requires forall token | token in tokens :: token.Quoted? || token.Bare?
    ensures Stretches(tokens + rest, end, current) == Stretches(rest, end, current + Script(tokens, Closed))
    decreases |tokens|
  {
    if tokens == [] {
      assert tokens + rest == rest && current + "" == current;
    } else {
      var text := tokens[0].Text();
      assert tokens[0] in tokens && (tokens + rest)[1..] == tokens[1..] + rest;
      hide Token.Text;
      StatementAdds(tokens[1..], rest, end, current + text);
      Regroup(current, text, Script(tokens[1..], Closed));
    }
  }

  lemma WhiteStatement(white: string)
    requires AllWhite(white)
    ensures Statement(white) == []
  {
    assert white == white + "" + "";
    assert AllWhite("");
    CoreIsTrim(white, "");
  }

  lemma TrimmedStatement(white: string, s: string)
    requires AllWhite(white) && Trimmed(s)
    ensures Statement(white + s) == [s]
  {
    assert white + s == white + s + "";
    assert AllWhite("");
    CoreIsTrim(white + s, s);
  }

  lemma GapToken(gap: seq<Token>, rest: string)
    requires Gap(gap) && gap != []
    ensures gap[0].Valid() && Apart(gap[0], rest) && Gap(gap[1..])
  {
    assert gap[0] in gap;
  }

  lemma HeadFirst(a: seq<Token>, b: seq<Token>)
    requires a != []
    ensures a + b == [a[0]] + (a[1..] + b) && (a + b)[1..] == a[1..] + b
  {
  }

  lemma {:induction false} GapTokens(gap: seq<Token>, rest: seq<Token>, end: End)
    requires Gap(gap) && Tokens(rest, end)
    ensures Tokens(gap + rest, end)
    decreases |gap|
  {
    hide Tokens, Script, Token.Valid, Gap, Apart;
    if gap == [] {
      assert gap + rest == rest;
    } else {
      GapToken(gap, Script(gap[1..] + rest, end));
      HeadFirst(gap, rest);
      GapTokens(gap[1..], rest, end);
      TokenAhead(gap[0], gap[1..] + rest, end);
    }
  }

  lemma ScriptFirst(tokens: seq<Token>, end: End)
    requires tokens != []
    ensures Script(tokens, end) == tokens[0].Text() + Script(tokens[1..], end)
  {
  }

  lemma {:induction false} ScriptConcat(tokens: seq<Token>, rest: seq<Token>, end: End)
    ensures Script(tokens + rest, end) == Script(tokens, Closed) + Script(rest, end)
    decreases |tokens|
  {
    if tokens == [] {
      assert tokens + rest == rest && "" + Script(rest, end) == Script(rest, end);
    } else {
      hide Script, Token.Text;
      ScriptFirst(tokens, Closed);
      ScriptFirst(tokens + rest, end);
      HeadFirst(tokens, rest);
      ScriptConcat(tokens[1..], rest, end);
      Regroup(tokens[0].Text(), Script(tokens[1..], Closed), Script(rest, end));
    }
  }

  lemma TokensFirst(tokens: seq<Token>, end: End)
    requires tokens != []
    ensures Tokens(tokens, end) <==>
            tokens[0].Valid() && Apart(tokens[0], Script(tokens[1..], end)) && Tokens(tokens[1..], end)
  {
  }

  lemma ApartMore(token: Token, a: string, b: string)
    requires Apart(token, a) && (b == "" || b[0] != '-')
    ensures Apart(token, a + b)
  {
  }

  lemma {:induction false} SentenceTokens(tokens: seq<Token>, rest: seq<Token>, end: End)
    requires Tokens(tokens, Closed) && Tokens(rest, end) && (Script(rest, end) == "" || Script(rest, end)[0] != '-')
    ensures Tokens(tokens + rest, end)
    decreases |tokens|
  {
    hide Tokens, Script, Apart, Token.Valid;
    if tokens == [] {
      assert tokens + rest == rest;
    } else {
      assert (tokens + rest)[1..] == tokens[1..] + rest;
      TokensFirst(tokens, Closed);
      TokensFirst(tokens + rest, end);
      SentenceTokens(tokens[1..], rest, end);
      ScriptConcat(tokens[1..], rest, end);
      ApartMore(tokens[0], Script(tokens[1..], Closed), Script(rest, end));
    }
  }

  lemma SemicolonFirst(rest: seq<Token>, end: End, current: string)
    ensures Tokens([Semicolon] + rest, end) <==> Tokens(rest, end)
    ensures Script([Semicolon] + rest, end) == ";" + Script(rest, end)
    ensures StatementsOf(Stretches([Semicolon] + rest, end, current)) ==
            Statement(current) + StatementsOf(Stretches(rest, end, ""))
  {
    assert ([Semicolon] + rest)[1..] == rest;
    assert ([current] + Stretches(rest, end, ""))[1..] == Stretches(rest, end, "");
    hide Statement;
  }

  lemma {:induction false} RenderedStretches(items: seq<Item>, tail: seq<Token>)
    requires Gap(tail) && forall item | item in items :: item.Valid()
    ensures Tokens(Rendered(items, tail), Closed)
    ensures StatementsOf(Stretches(Rendered(items, tail), Closed, "")) == Texts(items)
  {
    hide Statement;
    if items == [] {
      assert tail + [] == tail;
      GapTokens(tail, [], Closed);
      var white := GapAddsWhite(tail, [], Closed, "");
      assert "" + white + "" == white;
      assert Stretches(tail, Closed, "") == [white] && [white][1..] == [];
      WhiteStatement(white);
    } else {
      var item, rest := items[0], Rendered(items[1..], tail);
      assert item in items;
      RenderedStretches(items[1..], tail);
      var white := GapAddsWhite(item.gap, item.statement + ([Semicolon] + rest), Closed, "");
      assert "" + white == white;
      StatementAdds(item.statement, [Semicolon] + rest, Closed, white);
      var text := Script(item.statement, Closed);
      SemicolonFirst(rest, Closed, white + text);
      TrimmedStatement(white, text);
      SentenceTokens(item.statement, [Semicolon] + rest, Closed);
      GapTokens(item.gap, item.statement + ([Semicolon] + rest), Closed);
    }
  }

  /**
   * Statements written one after the other, each ended by a semicolon and preceded by any white space
   * and comment lines, are split into exactly those statements.
   */
  lemma SplitRendered(items: seq<Item>, tail: seq<Token>)
    requires Gap(tail) && forall item | item in items :: item.Valid()
    ensures Split(Script(Rendered(items, tail), Closed), "", Open) == Texts(items)
  {
    RenderedStretches(items, tail);
    SplitsStretches(Rendered(items, tail), Closed, "");
  }

  function SentenceTexts(sentences: seq<seq<Token>>): seq<string> {
    if sentences == [] then [] else [Script(sentences[0], Closed)] + SentenceTexts(sentences[1..])
  }

  function Join(statements: seq<string>): string {
    if |statements| <= 1 then (if statements == [] then "" else statements[0])
    else statements[0] + (";" + Join(statements[1..]))
  }

  /** Joining with bare semicolons, the last statement unterminated, is inverted too. */
  lemma {:induction false} SplitJoined(sentences: seq<seq<Token>>)
    requires forall sentence | sentence in sentences :: Sentence(sentence)
    ensures Split(Join(SentenceTexts(sentences)), "", Open) == SentenceTexts(sentences)
  {
    WhiteStatement("");
    hide Statement;
    if sentences != [] {
      var first, text := sentences[0], Script(sentences[0], Closed);
      assert first in sentences;
      assert first + [] == first && "" + text == text && text + "" == text;
      TrimmedStatement("", text);
      if |sentences| == 1 {
        SplitsStretches(first, Closed, "");
        StatementAdds(first, [], Closed, "");
        assert [text][1..] == [] && SentenceTexts(sentences) == [text];
      } else {
        SplitJoined(sentences[1..]);
        var rest := SentenceTexts(sentences[1..]);
        assert SentenceTexts(sentences)[1..] == rest;
        SentenceScanned(first, Join(rest));
        SplitAtSemicolon(text, Join(rest));
      }
    }
  }

  /** A statement in front of a semicolon is scanned as it stands. */
  lemma SentenceScanned(tokens: seq<Token>, rest: string)
    requires Sentence(tokens)
    ensures Split(Script(tokens, Closed) + (";" + rest), "", Open) == Split(";" + rest, Script(tokens, Closed), Open)
  {
    var more, end := EveryScript(";" + rest);
    var text := Script(tokens, Closed);
    SentenceTokens(tokens, more, end);
    ScriptConcat(tokens, more, end);
    SplitsStretches(tokens + more, end, "");
    StatementAdds(tokens, more, end, "");
    assert "" + text == text;
    SplitsStretches(more, end, text);
  }

  // ---- Comments between statements ----------------------------------------------

  lemma LeadingWhite(white: string, s: string)
    requires AllWhite(white)
    ensures Statement(white + s) == Statement(s)
  {
    TrimIsCore(s);
    var before, after :| AllWhite(before) && AllWhite(after) && s == before + Trim(s) + after;
    assert white + s == (white + before) + Trim(s) + after && AllWhite(white + before);
    CoreIsTrim(white + s, Trim(s));
  }

  lemma {:induction false} LeadingWhiteStretches(tokens: seq<Token>, end: End, white: string, current: string)
    requires AllWhite(white)
    ensures StatementsOf(Stretches(tokens, end, white + current)) == StatementsOf(Stretches(tokens, end, current))
    decreases |tokens|
  {
    hide Statement;
    if tokens == [] {
      assert white + current + end.Left() == white + (current + end.Left());
      LeadingWhite(white, current + end.Left());
      assert [white + current + end.Left()][1..] == [current + end.Left()][1..];
    } else if tokens[0].Semicolon? {
      LeadingWhite(white, current);
      var rest := Stretches(tokens[1..], end, "");
      assert ([white + current] + rest)[1..] == rest && ([current] + rest)[1..] == rest;
    } else {
      var more := if tokens[0].Comment? then "\n" else tokens[0].Text();
      assert white + current + more == white + (current + more);
      LeadingWhiteStretches(tokens[1..], end, white, current + more);
    }
  }

  /** What stands in front of a gap behind a semicolon plays no part in what follows it. */
  lemma {:induction false} SameBehind(a: seq<Token>, one: seq<Token>, other: seq<Token>, end: End, current: string)
    requires a != [] && a[|a| - 1].Semicolon?
    requires StatementsOf(Stretches(one, end, "")) == StatementsOf(Stretches(other, end, ""))
    ensures StatementsOf(Stretches(a + one, end, current)) == StatementsOf(Stretches(a + other, end, current))
    decreases |a|
  {
    hide Statement;
    assert (a + one)[1..] == a[1..] + one && (a + other)[1..] == a[1..] + other;
    if a[0].Semicolon? {
      if |a| > 1 {
        SameBehind(a[1..], one, other, end, "");
      } else {
        assert a[1..] + one == one && a[1..] + other == other;
      }
      var x, y := Stretches(a[1..] + one, end, ""), Stretches(a[1..] + other, end, "");
      assert ([current] + x)[1..] == x && ([current] + y)[1..] == y;
    } else {
      SameBehind(a[1..], one, other, end, current + if a[0].Comment? then "\n" else a[0].Text());
    }
  }

  /** Between statements a comment changes nothing at all. */
  lemma CommentAtBoundary(a: seq<Token>, gap: seq<Token>, comment: Token, b: seq<Token>, end: End)
    requires (a == [] || a[|a| - 1].Semicolon?) && Gap(gap) && comment.Comment?
    requires Tokens(a + (gap + ([comment] + b)), end) && Tokens(a + (gap + b), end)
    ensures Split(Script(a + (gap + ([comment] + b)), end), "", Open) == Split(Script(a + (gap + b), end), "", Open)
  {
    var one, other := gap + ([comment] + b), gap + b;
    SplitsStretches(a + one, end, "");
    SplitsStretches(a + other, end, "");
    hide Split, Tokens, Statement;
    var white := GapAddsWhite(gap, [comment] + b, end, "");
    var blank := GapAddsWhite(gap, b, end, "");
    assert ([comment] + b)[1..] == b && "" + white == white && "" + blank == blank;
    assert white + "\n" + "" == white + "\n" && blank + "" == blank;
    LeadingWhiteStretches(b, end, white + "\n", "");
    LeadingWhiteStretches(b, end, blank, "");
    if a == [] {
      assert a + one == one && a + other == other;
    } else {
      SameBehind(a, one, other, end, "");
    }
  }
}
