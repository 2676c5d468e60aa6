/** When-expressions of keybindings: the printer of apps/server/src/keybindings.ts
    (`encodeWhenAst`) against the lexer and parser of packages/shared/src/keybindings.ts. */
module WhenExpressions {
  import opened Outcomes
  import opened Text

  datatype Node =
    | Identifier(name: string)
    | Not(node: Node)
    | And(left: Node, right: Node)
    | Or(left: Node, right: Node)

  function EncodeWhenAst(node: Node): string {
    match node
    case Identifier(name) => name
    case Not(a) => "!(" + EncodeWhenAst(a) + ")"
    case And(a, b) => "(" + EncodeWhenAst(a) + " && " + EncodeWhenAst(b) + ")"
    case Or(a, b) => "(" + EncodeWhenAst(a) + " || " + EncodeWhenAst(b) + ")"
  }

  // ---------------------------------------------------------------- tokens

  datatype Token = Name(value: string) | NotToken | AndToken | OrToken | Open | Close

  /** Which characters begin and continue an identifier. */
  datatype Alphabet = Alphabet(start: char -> bool, part: char -> bool)

  predicate IsOperator(c: char) {
    c == '!' || c == '(' || c == ')' || c == '&' || c == '|'
  }

  /** No identifier contains white space or a character of an operator. */
  ghost predicate OperatorFree(a: Alphabet) {
    forall c: char :: (a.start(c) ==> a.part(c)) && (a.part(c) ==> !IsSpace(c) && !IsOperator(c))
  }

  predicate IsName(a: Alphabet, s: string) {
    s != "" && a.start(s[0]) && forall i | 0 < i < |s| :: a.part(s[i])
  }

  /** How many characters of the identifier class a text begins with. */
  function PartRun(a: Alphabet, s: string): (n: nat)
    ensures n <= |s| && (forall i | 0 <= i < n :: a.part(s[i])) && (n < |s| ==> !a.part(s[n]))
  {
    if s == "" || !a.part(s[0]) then 0 else 1 + PartRun(a, s[1..])
  }

  function Prepend(tokens: seq<Token>, rest: Option<seq<Token>>): Option<seq<Token>> {
    if rest.None? then None else Some(tokens + rest.value)
  }

  function Tokenize(a: Alphabet, s: string): Option<seq<Token>>
    decreases |s|
  {
    if s == "" then Some([])
    else if IsSpace(s[0]) then Tokenize(a, s[1..])
    else if "&&" <= s then Prepend([AndToken], Tokenize(a, s[2..]))
    else if "||" <= s then Prepend([OrToken], Tokenize(a, s[2..]))
    else if s[0] == '!' then Prepend([NotToken], Tokenize(a, s[1..]))
    else if s[0] == '(' then Prepend([Open], Tokenize(a, s[1..]))
    else if s[0] == ')' then Prepend([Close], Tokenize(a, s[1..]))
    else if a.start(s[0]) then
      var n := 1 + PartRun(a, s[1..]);
      Prepend([Name(s[..n])], Tokenize(a, s[n..]))
    else None
  }

  // ---------------------------------------------------------------- the parser

  type Parsed = Option<(Node, nat)>

  predicate At(ts: seq<Token>, i: nat, t: Token) {
    i < |ts| && ts[i] == t
  }

  function ParsePrimary(ts: seq<Token>, i: nat, depth: nat, limit: nat): (r: Parsed)
    ensures r.Some? ==> i < r.value.1 <= |ts|
    decreases |ts| - i, 0
  {
    if depth > limit || i >= |ts| then None
    else if ts[i].Name? then Some((Identifier(ts[i].value), i + 1))
    else if ts[i].Open? then
      var inner := ParseOr(ts, i + 1, depth + 1, limit);
      if inner.Some? && At(ts, inner.value.1, Close) then Some((inner.value.0, inner.value.1 + 1)) else None
    else None
  }

  /** The run of negations before a primary; too long a run is refused. */
  function NotRun(ts: seq<Token>, i: nat): (n: nat)
    ensures i <= |ts| ==> i + n <= |ts|
    decreases |ts| - i
  {
    if At(ts, i, NotToken) then 1 + NotRun(ts, i + 1) else 0
  }

  function Negate(n: nat, node: Node): Node {
    if n == 0 then node else Not(Negate(n - 1, node))
  }

  function ParseUnary(ts: seq<Token>, i: nat, depth: nat, limit: nat): (r: Parsed)
    ensures r.Some? ==> i < r.value.1 <= |ts|
    decreases |ts| - i, 1
  {
    var n := NotRun(ts, i);
    if n > limit || i > |ts| then None
    else
      var primary := ParsePrimary(ts, i + n, depth, limit);
      if primary.None? then None else Some((Negate(n, primary.value.0), primary.value.1))
  }

  function AndLoop(ts: seq<Token>, left: Node, i: nat, depth: nat, limit: nat): (r: Parsed)
    requires i <= |ts|
    ensures r.Some? ==> i <= r.value.1 <= |ts|
    decreases |ts| - i, 2
  {
    if At(ts, i, AndToken) then
      var right := ParseUnary(ts, i + 1, depth, limit);
      if right.None? then None else AndLoop(ts, And(left, right.value.0), right.value.1, depth, limit)
    else Some((left, i))
  }

  function ParseAnd(ts: seq<Token>, i: nat, depth: nat, limit: nat): (r: Parsed)
    ensures r.Some? ==> i < r.value.1 <= |ts|
    decreases |ts| - i, 3
  {
    var left := ParseUnary(ts, i, depth, limit);
    if left.None? then None else AndLoop(ts, left.value.0, left.value.1, depth, limit)
  }

  function OrLoop(ts: seq<Token>, left: Node, i: nat, depth: nat, limit: nat): (r: Parsed)
    requires i <= |ts|
    ensures r.Some? ==> i <= r.value.1 <= |ts|
    decreases |ts| - i, 4
  {
    if At(ts, i, OrToken) then
      var right := ParseAnd(ts, i + 1, depth, limit);
      if right.None? then None else OrLoop(ts, Or(left, right.value.0), right.value.1, depth, limit)
    else Some((left, i))
  }

  function ParseOr(ts: seq<Token>, i: nat, depth: nat, limit: nat): (r: Parsed)
    ensures r.Some? ==> i < r.value.1 <= |ts|
    decreases |ts| - i, 5
  {
    var left := ParseAnd(ts, i, depth, limit);
    if left.None? then None else OrLoop(ts, left.value.0, left.value.1, depth, limit)
  }

  /** `parseKeybindingWhenExpression`, for any alphabet and any depth limit. */
  function ParseWhen(a: Alphabet, s: string, limit: nat): Option<Node> {
    var tokens := Tokenize(a, s);
    if tokens.None? || tokens.value == [] then None
    else
      var ast := ParseOr(tokens.value, 0, 0, limit);
      if ast.Some? && ast.value.1 == |tokens.value| then Some(ast.value.0) else None
  }

  // ---------------------------------------------------------------- printed tokens

  function Tokens(node: Node): (r: seq<Token>)
    ensures r != []
  {
    match node
    case Identifier(name) => [Name(name)]
    case Not(a) => [NotToken, Open] + Tokens(a) + [Close]
    case And(a, b) => [Open] + Tokens(a) + [AndToken] + Tokens(b) + [Close]
    case Or(a, b) => [Open] + Tokens(a) + [OrToken] + Tokens(b) + [Close]
  }

  function Depth(node: Node): nat {
    match node
    case Identifier(_) => 0
    case Not(a) => 1 + Depth(a)
    case And(a, b) => 1 + if Depth(a) > Depth(b) then Depth(a) else Depth(b)
    case Or(a, b) => 1 + if Depth(a) > Depth(b) then Depth(a) else Depth(b)
  }

  predicate Names(a: Alphabet, node: Node) {
    match node
    case Identifier(name) => IsName(a, name)
    case Not(x) => Names(a, x)
    case And(x, y) => Names(a, x) && Names(a, y)
    case Or(x, y) => Names(a, x) && Names(a, y)
  }

  lemma {:induction false} PartRunOf(a: Alphabet, s: string, rest: string)
    requires (forall i | 0 <= i < |s| :: a.part(s[i])) && (rest == "" || !a.part(rest[0]))
    ensures PartRun(a, s + rest) == |s|
  {
    if s == "" {
      assert s + rest == rest;
    } else {
      assert (s + rest)[1..] == s[1..] + rest;
      PartRunOf(a, s[1..], rest);
    }
  }

  lemma LexStart(a: Alphabet, s: string)
    requires s != "" && !IsSpace(s[0]) && !IsOperator(s[0]) && a.start(s[0])
    ensures var n := 1 + PartRun(a, s[1..]);
            Tokenize(a, s) == Prepend([Name(s[..n])], Tokenize(a, s[n..]))
  {
    assert "&&"[0] == '&' && "||"[0] == '|';
  }

  lemma LexName(a: Alphabet, name: string, rest: string)
    requires OperatorFree(a) && IsName(a, name) && (rest == "" || !a.part(rest[0]))
    ensures Tokenize(a, name + rest) == Prepend([Name(name)], Tokenize(a, rest))
  {
    var s := name + rest;
    assert s[0] == name[0] && a.part(s[0]);
    assert s[1..] == name[1..] + rest;
    PartRunOf(a, name[1..], rest);
    assert s[..|name|] == name && s[|name|..] == rest;
    LexStart(a, s);
  }

  lemma LexOne(a: Alphabet, c: char, rest: string)
    requires c == '!' || c == '(' || c == ')'
    ensures Tokenize(a, [c] + rest)
         == Prepend([if c == '!' then NotToken else if c == '(' then Open else Close], Tokenize(a, rest))
  {
    assert ([c] + rest)[1..] == rest;
    assert "&&"[0] == '&' && "||"[0] == '|';
  }

  lemma LexSpace(a: Alphabet, rest: string)
    ensures Tokenize(a, " " + rest) == Tokenize(a, rest)
  {
    assert (" " + rest)[1..] == rest;
  }

  function Operator(c: char): Token {
    if c == '&' then AndToken else OrToken
  }

  lemma LexDouble(a: Alphabet, c: char, rest: string)
    requires c == '&' || c == '|'
    ensures Tokenize(a, [c, c] + rest) == Prepend([Operator(c)], Tokenize(a, rest))
  {
    var s := [c, c] + rest;
    assert s[2..] == rest && s[..2] == [c, c];
    assert "&&"[0] == '&' && "||"[0] == '|';
    assert c == '&' ==> "&&" == [c, c];
    assert c == '|' ==> "||" == [c, c];
  }

  function Spaced(c: char): string {
    [' ', c, c, ' ']
  }

  lemma LexBinary(a: Alphabet, c: char, rest: string)
    requires c == '&' || c == '|'
    ensures Tokenize(a, Spaced(c) + rest) == Prepend([Operator(c)], Tokenize(a, rest))
  {
    assert Spaced(c) + rest == " " + ([c, c] + (" " + rest));
    LexSpace(a, [c, c] + (" " + rest));
    LexDouble(a, c, " " + rest);
    LexSpace(a, rest);
  }

  lemma PrependPrepend(x: seq<Token>, y: seq<Token>, rest: Option<seq<Token>>)
    ensures Prepend(x, Prepend(y, rest)) == Prepend(x + y, rest)
  {
    if rest.Some? {
      assert x + (y + rest.value) == x + y + rest.value;
    }
  }

  lemma LexNot(a: Alphabet, text: string, tokens: seq<Token>, rest: string)
    requires Tokenize(a, text + (")" + rest)) == Prepend(tokens, Tokenize(a, ")" + rest))
    ensures Tokenize(a, "!(" + text + ")" + rest) == Prepend([NotToken, Open] + tokens + [Close], Tokenize(a, rest))
  {
    var tail := text + (")" + rest);
    assert "!(" + text + ")" + rest == "!" + ("(" + tail);
    LexOne(a, '!', "(" + tail);
    LexOne(a, '(', tail);
    LexOne(a, ')', rest);
    var end := Tokenize(a, rest);
    PrependPrepend(tokens, [Close], end);
    PrependPrepend([Open], tokens + [Close], end);
    PrependPrepend([NotToken], [Open] + (tokens + [Close]), end);
    assert [NotToken] + ([Open] + (tokens + [Close])) == [NotToken, Open] + tokens + [Close];
  }

  lemma LexPair(a: Alphabet, x: string, xs: seq<Token>, c: char, y: string, ys: seq<Token>, rest: string)
    requires c == '&' || c == '|'
    requires Tokenize(a, x + (Spaced(c) + (y + (")" + rest)))) == Prepend(xs, Tokenize(a, Spaced(c) + (y + (")" + rest))))
    requires Tokenize(a, y + (")" + rest)) == Prepend(ys, Tokenize(a, ")" + rest))
    ensures Tokenize(a, "(" + x + Spaced(c) + y + ")" + rest)
         == Prepend([Open] + xs + [Operator(c)] + ys + [Close], Tokenize(a, rest))
  {
    var middle := Spaced(c) + (y + (")" + rest));
    assert "(" + x + Spaced(c) + y + ")" + rest == "(" + (x + middle);
    LexOne(a, '(', x + middle);
    LexBinary(a, c, y + (")" + rest));
    LexOne(a, ')', rest);
    var end := Tokenize(a, rest);
    PrependPrepend(ys, [Close], end);
    PrependPrepend([Operator(c)], ys + [Close], end);
    PrependPrepend(xs, [Operator(c)] + (ys + [Close]), end);
    PrependPrepend([Open], xs + ([Operator(c)] + (ys + [Close])), end);
    assert [Open] + (xs + ([Operator(c)] + (ys + [Close]))) == [Open] + xs + [Operator(c)] + ys + [Close];
  }

  lemma SpacedTexts()
    ensures Spaced('&') == " && " && Spaced('|') == " || "
  {
  }

  /** The lexer reads a printed tree as its tokens. */
  lemma {:induction false} LexPrinted(a: Alphabet, node: Node, rest: string)
    requires OperatorFree(a) && Names(a, node) && (rest == "" || !a.part(rest[0]))
    ensures Tokenize(a, EncodeWhenAst(node) + rest) == Prepend(Tokens(node), Tokenize(a, rest))
    decreases node
  {
    match node
    case Identifier(name) => LexName(a, name, rest);
    case Not(x) =>
      LexPrinted(a, x, ")" + rest);
      LexNot(a, EncodeWhenAst(x), Tokens(x), rest);
    case And(x, y) =>
      SpacedTexts();
      LexPrinted(a, x, Spaced('&') + (EncodeWhenAst(y) + (")" + rest)));
      LexPrinted(a, y, ")" + rest);
      LexPair(a, EncodeWhenAst(x), Tokens(x), '&', EncodeWhenAst(y), Tokens(y), rest);
    case Or(x, y) =>
      SpacedTexts();
      LexPrinted(a, x, Spaced('|') + (EncodeWhenAst(y) + (")" + rest)));
      LexPrinted(a, y, ")" + rest);
      LexPair(a, EncodeWhenAst(x), Tokens(x), '|', EncodeWhenAst(y), Tokens(y), rest);
  }

  // ---------------------------------------------------------------- parsing printed tokens

  /** The tokens from `i` on begin with those of the tree. */
  predicate Holds(ts: seq<Token>, i: nat, node: Node) {
    After(i, node) <= |ts| && ts[i..After(i, node)] == Tokens(node)
  }

  function After(i: nat, node: Node): nat {
    i + |Tokens(node)|
  }

  lemma SlicePart(ts: seq<Token>, i: nat, b: seq<Token>, t: seq<Token>, a: seq<Token>)
    requires i + |b| + |t| + |a| <= |ts| && ts[i..i + |b| + |t| + |a|] == b + t + a
    ensures ts[i + |b|..i + |b| + |t|] == t
    ensures a != [] ==> ts[i + |b| + |t|] == a[0]
    ensures b != [] ==> ts[i] == b[0]
  {
    var all := b + t + a;
    assert forall k | 0 <= k < |all| :: all[k] == ts[i + k];
    forall k | 0 <= k < |t| ensures ts[i + |b|..i + |b| + |t|][k] == t[k] {
      assert all[|b| + k] == t[k];
    }
    assert a != [] ==> all[|b| + |t|] == a[0];
    assert b != [] ==> all[0] == b[0];
  }

  lemma FirstToken(ts: seq<Token>, i: nat, node: Node)
    requires Holds(ts, i, node)
    ensures i < |ts| && ts[i] == Tokens(node)[0]
  {
  }

  ghost predicate Reads(ts: seq<Token>, i: nat, node: Node, depth: nat, limit: nat) {
    ParseUnary(ts, i, depth, limit) == if depth + Depth(node) <= limit then Some((node, After(i, node))) else None
  }

  /** A printed tree is read back as one operand, if its nesting is within the limit. */
  lemma {:induction false} ParsePrinted(ts: seq<Token>, i: nat, node: Node, depth: nat, limit: nat)
    requires Holds(ts, i, node) && limit > 0
    ensures Reads(ts, i, node, depth, limit)
    decreases node, 1
  {
    match node
    case Identifier(_) => FirstToken(ts, i, node);
    case Not(x) => ParsePrintedNot(ts, i, x, depth, limit);
    case And(x, y) => ParsePrintedPair(ts, i, node, x, y, AndToken, depth, limit);
    case Or(x, y) => ParsePrintedPair(ts, i, node, x, y, OrToken, depth, limit);
  }

  lemma {:induction false} ParsePrintedNot(ts: seq<Token>, i: nat, x: Node, depth: nat, limit: nat)
    requires Holds(ts, i, Not(x)) && limit > 0
    ensures Reads(ts, i, Not(x), depth, limit)
    decreases Not(x), 0
  {
    assert Holds(ts, i + 2, x) by { NotTokens(ts, i, x); }
    ParsePrinted(ts, i + 2, x, depth + 1, limit);
    NotReads(ts, i, x, depth, limit);
  }

  lemma {:induction false} ParsePrintedPair(ts: seq<Token>, i: nat, node: Node, x: Node, y: Node, op: Token,
                                            depth: nat, limit: nat)
    requires Holds(ts, i, node) && limit > 0
    requires (op == AndToken && node == And(x, y)) || (op == OrToken && node == Or(x, y))
    ensures Reads(ts, i, node, depth, limit)
    decreases node, 0
  {
    assert Holds(ts, i + 1, x) && Holds(ts, After(i + 1, x) + 1, y) by { PairTokens(ts, i, node, x, y, op); }
    ParsePrinted(ts, i + 1, x, depth + 1, limit);
    ParsePrinted(ts, After(i + 1, x) + 1, y, depth + 1, limit);
    PairReads(ts, i, node, x, y, op, depth, limit);
  }

  lemma NotTokens(ts: seq<Token>, i: nat, x: Node)
    requires Holds(ts, i, Not(x))
    ensures At(ts, i, NotToken) && At(ts, i + 1, Open) && Holds(ts, i + 2, x) && At(ts, After(i + 2, x), Close)
    ensures After(i + 2, x) + 1 == After(i, Not(x))
  {
    SlicePart(ts, i, [NotToken, Open], Tokens(x), [Close]);
    assert ts[i + 1] == ts[i..After(i, Not(x))][1];
  }

  lemma NotReads(ts: seq<Token>, i: nat, x: Node, depth: nat, limit: nat)
    requires Holds(ts, i, Not(x)) && limit > 0 && Reads(ts, i + 2, x, depth + 1, limit)
    ensures Reads(ts, i, Not(x), depth, limit)
  {
    NotTokens(ts, i, x);
    Alone(ts, i + 2, x, depth + 1, limit);
    assert NotRun(ts, i) == 1;
    assert Negate(1, x) == Not(x);
  }

  /** No operator follows. */
  predicate Ends(ts: seq<Token>, i: nat) {
    i <= |ts| && !At(ts, i, AndToken) && !At(ts, i, OrToken)
  }

  /** An operand that no operator follows is a whole expression. */
  lemma Alone(ts: seq<Token>, i: nat, x: Node, depth: nat, limit: nat)
    requires Ends(ts, After(i, x))
    requires Reads(ts, i, x, depth, limit)
    ensures ParseAnd(ts, i, depth, limit) == ParseOr(ts, i, depth, limit) == ParseUnary(ts, i, depth, limit)
  {
    LoopsStop(ts, x, After(i, x), depth, limit);
    if depth + Depth(x) <= limit {
      assert ParseAnd(ts, i, depth, limit) == AndLoop(ts, x, After(i, x), depth, limit);
      assert ParseOr(ts, i, depth, limit) == OrLoop(ts, x, After(i, x), depth, limit);
    } else {
      assert ParseAnd(ts, i, depth, limit) == None;
    }
  }

  lemma LoopsStop(ts: seq<Token>, left: Node, i: nat, depth: nat, limit: nat)
    requires Ends(ts, i)
    ensures AndLoop(ts, left, i, depth, limit) == OrLoop(ts, left, i, depth, limit) == Some((left, i))
  {
  }

  lemma PairTokens(ts: seq<Token>, i: nat, node: Node, x: Node, y: Node, op: Token)
    requires Holds(ts, i, node)
    requires (op == AndToken && node == And(x, y)) || (op == OrToken && node == Or(x, y))
    ensures var j := After(i + 1, x);
            && At(ts, i, Open) && Holds(ts, i + 1, x) && At(ts, j, op)
            && Holds(ts, j + 1, y) && At(ts, After(j + 1, y), Close) && After(j + 1, y) + 1 == After(i, node)
  {
    PairSlices(ts, i, Tokens(node), Tokens(x), op, Tokens(y));
  }

  lemma PairSlices(ts: seq<Token>, i: nat, all: seq<Token>, x: seq<Token>, op: Token, y: seq<Token>)
    requires all == [Open] + x + [op] + y + [Close]
    requires i + |all| <= |ts| && ts[i..i + |all|] == all
    ensures ts[i] == Open && ts[i + 1..i + 1 + |x|] == x && ts[i + 1 + |x|] == op
    ensures ts[i + 2 + |x|..i + 2 + |x| + |y|] == y && ts[i + 2 + |x| + |y|] == Close
  {
    assert all == [Open] + x + ([op] + y + [Close]);
    assert all == ([Open] + x + [op]) + y + [Close];
    SlicePart(ts, i, [Open], x, [op] + y + [Close]);
    SlicePart(ts, i, [Open] + x + [op], y, [Close]);
  }

  /** Parenthesised operands that are read make a pair that is read. */
  lemma PairReads(ts: seq<Token>, i: nat, node: Node, x: Node, y: Node, op: Token, depth: nat, limit: nat)
    requires (op == AndToken && node == And(x, y)) || (op == OrToken && node == Or(x, y))
    requires Holds(ts, i, node)
    requires Reads(ts, i + 1, x, depth + 1, limit) && Reads(ts, After(i + 1, x) + 1, y, depth + 1, limit)
    ensures Reads(ts, i, node, depth, limit)
  {
    PairTokens(ts, i, node, x, y, op);
    Joined(ts, i + 1, node, x, y, op, depth + 1, limit);
    Wrapped(ts, i, node, depth, limit);
  }

  /** A parenthesised expression is an operand. */
  lemma Wrapped(ts: seq<Token>, i: nat, node: Node, depth: nat, limit: nat)
    requires At(ts, i, Open) && At(ts, After(i, node) - 1, Close) && Depth(node) > 0
    requires ParseOr(ts, i + 1, depth + 1, limit)
          == if depth + Depth(node) <= limit then Some((node, After(i, node) - 1)) else None
    ensures Reads(ts, i, node, depth, limit)
  {
    assert NotRun(ts, i) == 0;
    assert Negate(0, node) == node;
  }

  /** Two operands with an operator between them and a closing parenthesis after. */
  lemma Joined(ts: seq<Token>, i: nat, node: Node, x: Node, y: Node, op: Token, depth: nat, limit: nat)
    requires (op == AndToken && node == And(x, y)) || (op == OrToken && node == Or(x, y))
    requires At(ts, After(i, x), op) && At(ts, After(After(i, x) + 1, y), Close)
    requires Reads(ts, i, x, depth, limit) && Reads(ts, After(i, x) + 1, y, depth, limit)
    ensures ParseOr(ts, i, depth, limit)
         == if depth + Depth(node) <= limit + 1 then Some((node, After(After(i, x) + 1, y))) else None
  {
    if op == AndToken {
      JoinedByAnd(ts, i, x, y, depth, limit);
    } else {
      JoinedByOr(ts, i, x, y, depth, limit);
    }
  }

  lemma JoinedByAnd(ts: seq<Token>, i: nat, x: Node, y: Node, depth: nat, limit: nat)
    requires At(ts, After(i, x), AndToken) && At(ts, After(After(i, x) + 1, y), Close)
    requires Reads(ts, i, x, depth, limit) && Reads(ts, After(i, x) + 1, y, depth, limit)
    ensures ParseOr(ts, i, depth, limit)
         == if depth + Depth(x) <= limit && depth + Depth(y) <= limit
            then Some((And(x, y), After(After(i, x) + 1, y))) else None
  {
    var j, k := After(i, x), After(After(i, x) + 1, y);
    LoopsStop(ts, And(x, y), k, depth, limit);
    if depth + Depth(x) <= limit {
      assert ParseAnd(ts, i, depth, limit) == AndLoop(ts, x, j, depth, limit);
      if depth + Depth(y) <= limit {
        assert AndLoop(ts, x, j, depth, limit) == AndLoop(ts, And(x, y), k, depth, limit);
        assert ParseOr(ts, i, depth, limit) == OrLoop(ts, And(x, y), k, depth, limit);
      }
    }
  }

  lemma JoinedByOr(ts: seq<Token>, i: nat, x: Node, y: Node, depth: nat, limit: nat)
    requires At(ts, After(i, x), OrToken) && At(ts, After(After(i, x) + 1, y), Close)
    requires Reads(ts, i, x, depth, limit) && Reads(ts, After(i, x) + 1, y, depth, limit)
    ensures ParseOr(ts, i, depth, limit)
         == if depth + Depth(x) <= limit && depth + Depth(y) <= limit
            then Some((Or(x, y), After(After(i, x) + 1, y))) else None
  {
    var j, k := After(i, x), After(After(i, x) + 1, y);
    LoopsStop(ts, Or(x, y), k, depth, limit);
    Alone(ts, j + 1, y, depth, limit);
    if depth + Depth(x) <= limit {
      assert AndLoop(ts, x, j, depth, limit) == Some((x, j));
      assert ParseOr(ts, i, depth, limit) == OrLoop(ts, x, j, depth, limit);
      if depth + Depth(y) <= limit {
        assert OrLoop(ts, x, j, depth, limit) == OrLoop(ts, Or(x, y), k, depth, limit);
      }
    }
  }

  // ---------------------------------------------------------------- what the parser returns

  ghost predicate NamedTokens(a: Alphabet, ts: seq<Token>) {
    forall t | t in ts && t.Name? :: IsName(a, t.value)
  }

  lemma {:induction false} TokenizeNames(a: Alphabet, s: string)
    requires OperatorFree(a)
    ensures Tokenize(a, s).Some? ==> NamedTokens(a, Tokenize(a, s).value)
    decreases |s|
  {
    if s == "" {
    } else if IsSpace(s[0]) {
      TokenizeNames(a, s[1..]);
    } else if "&&" <= s || "||" <= s {
      TokenizeNames(a, s[2..]);
    } else if s[0] == '!' || s[0] == '(' || s[0] == ')' {
      TokenizeNames(a, s[1..]);
    } else if a.start(s[0]) {
      var n := 1 + PartRun(a, s[1..]);
      TokenizeNames(a, s[n..]);
      assert forall i | 0 < i < n :: s[i] == s[1..][i - 1];
      assert IsName(a, s[..n]);
    }
  }

  ghost predicate Named(a: Alphabet, r: Parsed) {
    r.Some? ==> Names(a, r.value.0)
  }

  lemma {:induction false} NegateNames(a: Alphabet, n: nat, node: Node)
    requires Names(a, node)
    ensures Names(a, Negate(n, node))
  {
    if n > 0 {
      NegateNames(a, n - 1, node);
    }
  }

  lemma {:induction false} PrimaryNames(a: Alphabet, ts: seq<Token>, i: nat, depth: nat, limit: nat)
    requires NamedTokens(a, ts)
    ensures Named(a, ParsePrimary(ts, i, depth, limit))
    decreases |ts| - i, 0
  {
    if depth <= limit && i < |ts| {
      assert ts[i] in ts;
      if ts[i].Open? {
        OrNames(a, ts, i + 1, depth + 1, limit);
      }
    }
  }

  lemma {:induction false} UnaryNames(a: Alphabet, ts: seq<Token>, i: nat, depth: nat, limit: nat)
    requires NamedTokens(a, ts)
    ensures Named(a, ParseUnary(ts, i, depth, limit))
    decreases |ts| - i, 1
  {
    var n := NotRun(ts, i);
    if n <= limit && i <= |ts| {
      PrimaryNames(a, ts, i + n, depth, limit);
      var primary := ParsePrimary(ts, i + n, depth, limit);
      if primary.Some? {
        NegateNames(a, n, primary.value.0);
      }
    }
  }

  lemma {:induction false} AndLoopNames(a: Alphabet, ts: seq<Token>, left: Node, i: nat, depth: nat, limit: nat)
    requires NamedTokens(a, ts) && i <= |ts| && Names(a, left)
    ensures Named(a, AndLoop(ts, left, i, depth, limit))
    decreases |ts| - i, 2
  {
    if At(ts, i, AndToken) {
      UnaryNames(a, ts, i + 1, depth, limit);
      var right := ParseUnary(ts, i + 1, depth, limit);
      if right.Some? {
        AndLoopNames(a, ts, And(left, right.value.0), right.value.1, depth, limit);
      }
    }
  }

  lemma {:induction false} AndNames(a: Alphabet, ts: seq<Token>, i: nat, depth: nat, limit: nat)
    requires NamedTokens(a, ts)
    ensures Named(a, ParseAnd(ts, i, depth, limit))
    decreases |ts| - i, 3
  {
    UnaryNames(a, ts, i, depth, limit);
    var left := ParseUnary(ts, i, depth, limit);
    if left.Some? {
      AndLoopNames(a, ts, left.value.0, left.value.1, depth, limit);
    }
  }

  lemma {:induction false} OrLoopNames(a: Alphabet, ts: seq<Token>, left: Node, i: nat, depth: nat, limit: nat)
    requires NamedTokens(a, ts) && i <= |ts| && Names(a, left)
    ensures Named(a, OrLoop(ts, left, i, depth, limit))
    decreases |ts| - i, 4
  {
    if At(ts, i, OrToken) {
      AndNames(a, ts, i + 1, depth, limit);
      var right := ParseAnd(ts, i + 1, depth, limit);
      if right.Some? {
        OrLoopNames(a, ts, Or(left, right.value.0), right.value.1, depth, limit);
      }
    }
  }

  lemma {:induction false} OrNames(a: Alphabet, ts: seq<Token>, i: nat, depth: nat, limit: nat)
    requires NamedTokens(a, ts)
    ensures Named(a, ParseOr(ts, i, depth, limit))
    decreases |ts| - i, 5
  {
    AndNames(a, ts, i, depth, limit);
    var left := ParseAnd(ts, i, depth, limit);
    if left.Some? {
      OrLoopNames(a, ts, left.value.0, left.value.1, depth, limit);
    }
  }

  lemma ParsedNames(a: Alphabet, s: string, limit: nat)
    requires OperatorFree(a)
    ensures ParseWhen(a, s, limit).Some? ==> Names(a, ParseWhen(a, s, limit).value)
  {
    TokenizeNames(a, s);
    if Tokenize(a, s).Some? {
      OrNames(a, Tokenize(a, s).value, 0, 0, limit);
    }
  }

  // ---------------------------------------------------------------- the printer is read back

  lemma PrintedTokens(a: Alphabet, node: Node)
    requires OperatorFree(a) && Names(a, node)
    ensures Tokenize(a, EncodeWhenAst(node)) == Some(Tokens(node))
  {
    LexPrinted(a, node, "");
    assert EncodeWhenAst(node) + "" == EncodeWhenAst(node);
    assert Tokens(node) + [] == Tokens(node);
  }

  lemma PrintedTree(node: Node, limit: nat)
    requires limit > 0
    ensures ParseOr(Tokens(node), 0, 0, limit)
         == if Depth(node) <= limit then Some((node, |Tokens(node)|)) else None
  {
    var ts := Tokens(node);
    assert ts[0..After(0, node)] == ts;
    ParsePrinted(ts, 0, node, 0, limit);
    Alone(ts, 0, node, 0, limit);
  }

  /** Printing a tree and parsing the text gives the tree back exactly when its identifiers
      are legal and it is nested no deeper than the parser allows. */
  lemma WhenRoundTrip(a: Alphabet, node: Node, limit: nat)
    requires OperatorFree(a) && limit > 0
    ensures ParseWhen(a, EncodeWhenAst(node), limit) == Some(node) <==> Names(a, node) && Depth(node) <= limit
  {
    ParsedNames(a, EncodeWhenAst(node), limit);
    if Names(a, node) {
      PrintedTokens(a, node);
      PrintedTree(node, limit);
    }
  }

  /** Trees over operator-free identifiers that print alike are the same tree. */
  lemma WhenUnambiguous(a: Alphabet, x: Node, y: Node)
    requires OperatorFree(a) && Names(a, x) && Names(a, y) && EncodeWhenAst(x) == EncodeWhenAst(y)
    ensures x == y
  {
    var limit := Depth(x) + Depth(y) + 1;
    WhenRoundTrip(a, x, limit);
    WhenRoundTrip(a, y, limit);
  }

  // ---------------------------------------------------------------- the alphabets

  const MAX_WHEN_EXPRESSION_DEPTH: nat := 64

  predicate NameStart(c: char) {
    'A' <= c <= 'Z' || 'a' <= c <= 'z' || c == '_'
  }

  predicate NamePart(c: char) {
    NameStart(c) || '0' <= c <= '9' || c == '.' || c == '-'
  }

  /** The identifiers of the source, `[A-Za-z_][A-Za-z0-9_.-]*`. */
  function Strict(): Alphabet {
    Alphabet(NameStart, NamePart)
  }

  predicate Plain(c: char) {
    !IsSpace(c) && !IsOperator(c)
  }

  /** Every identifier without white space and operator characters. */
  function Lax(): Alphabet {
    Alphabet(Plain, Plain)
  }

  lemma Alphabets()
    ensures OperatorFree(Strict()) && OperatorFree(Lax())
  {
  }

  /** The parser of the source reads back what the printer writes of a tree it can parse,
      and no deeper tree. */
  lemma ConfigRoundTrip(node: Node)
    ensures ParseWhen(Strict(), EncodeWhenAst(node), MAX_WHEN_EXPRESSION_DEPTH) == Some(node)
       <==> Names(Strict(), node) && Depth(node) <= MAX_WHEN_EXPRESSION_DEPTH
  {
    Alphabets();
    WhenRoundTrip(Strict(), node, MAX_WHEN_EXPRESSION_DEPTH);
  }

  /** A text with a character that is no white space, no operator and in no identifier is
      not an expression. */
  lemma {:induction false} ForeignRefused(a: Alphabet, s: string, c: char)
    requires c in s && !IsSpace(c) && !IsOperator(c) && !a.start(c) && !a.part(c)
    ensures Tokenize(a, s).None?
    decreases |s|
  {
    if IsSpace(s[0]) || s[0] == '!' || s[0] == '(' || s[0] == ')' {
      ForeignRefused(a, s[1..], c);
    } else if "&&" <= s || "||" <= s {
      assert s == s[..2] + s[2..];
      ForeignRefused(a, s[2..], c);
    } else if a.start(s[0]) {
      var n := 1 + PartRun(a, s[1..]);
      assert s == s[..n] + s[n..];
      assert c !in s[..n] by {
        forall i | 0 <= i < n ensures s[i] != c {
          assert i > 0 ==> s[i] == s[1..][i - 1];
        }
      }
      ForeignRefused(a, s[n..], c);
    }
  }

  /** A lone closing parenthesis is no expression. */
  lemma CloseRefused(limit: nat)
    ensures ParseWhen(Strict(), ")", limit).None?
  {
    assert ")"[1..] == "" && ")"[0] == ')';
    assert [Close] + [] == [Close];
    assert Tokenize(Strict(), ")") == Prepend([Close], Tokenize(Strict(), ""));
  }

  /** No when text of a rule that loads holds a NUL. */
  lemma NoNul(s: string, limit: nat)
    requires ParseWhen(Strict(), s, limit).Some?
    ensures '\0' !in s && s != ""
  {
    if '\0' in s {
      ForeignRefused(Strict(), s, '\0');
    }
  }

  /** Two trees over any identifiers without white space and operator characters. */
  lemma PrintAlike(x: Node, y: Node)
    requires Names(Lax(), x) && Names(Lax(), y)
    ensures EncodeWhenAst(x) == EncodeWhenAst(y) <==> x == y
  {
    Alphabets();
    if EncodeWhenAst(x) == EncodeWhenAst(y) {
      WhenUnambiguous(Lax(), x, y);
    }
  }
}
