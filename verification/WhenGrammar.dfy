/** The grammar of when-expressions: which texts the lexer and the parser of
    packages/shared/src/keybindings.ts accept, and what they make of them. */
module WhenGrammar {
  import opened Outcomes
  import opened Text
  import opened WhenExpressions

  /** A way to write an expression, with the parentheses that are there. */
  datatype Syntax =
    | Word(name: string)
    | Negated(operand: Syntax)
    | Both(left: Syntax, right: Syntax)
    | Either(left: Syntax, right: Syntax)
    | Parens(inner: Syntax)

  function Spell(s: Syntax): (r: seq<Token>)
    ensures r != []
  {
    match s
    case Word(name) => [Name(name)]
    case Negated(x) => [NotToken] + Spell(x)
    case Both(x, y) => Spell(x) + [AndToken] + Spell(y)
    case Either(x, y) => Spell(x) + [OrToken] + Spell(y)
    case Parens(x) => [Open] + Spell(x) + [Close]
  }

  function Meaning(s: Syntax): Node {
    match s
    case Word(name) => Identifier(name)
    case Negated(x) => Not(Meaning(x))
    case Both(x, y) => And(Meaning(x), Meaning(y))
    case Either(x, y) => Or(Meaning(x), Meaning(y))
    case Parens(x) => Meaning(x)
  }

  predicate Primary(s: Syntax) {
    s.Word? || s.Parens?
  }

  predicate Unary(s: Syntax) {
    s.Negated? || Primary(s)
  }

  predicate Conjunction(s: Syntax) {
    s.Both? || Unary(s)
  }

  function Nots(s: Syntax): nat {
    if s.Negated? then 1 + Nots(s.operand) else 0
  }

  /** Negation binds tighter than `&&`, and that tighter than `||`; both associate to the
      left; no more parentheses around anything, and no more negations in a row, than the limit. */
  predicate Grammatical(s: Syntax, depth: nat, limit: nat) {
    match s
    case Word(_) => depth <= limit
    case Parens(x) => depth <= limit && Grammatical(x, depth + 1, limit)
    case Negated(x) => Unary(x) && Nots(s) <= limit && Grammatical(x, depth, limit)
    case Both(x, y) => Conjunction(x) && Unary(y) && Grammatical(x, depth, limit) && Grammatical(y, depth, limit)
    case Either(x, y) => Conjunction(y) && Grammatical(x, depth, limit) && Grammatical(y, depth, limit)
  }

  function End(i: nat, s: Syntax): nat {
    i + |Spell(s)|
  }

  /** The tokens from `i` on begin with those of the expression. */
  predicate Stands(ts: seq<Token>, i: nat, s: Syntax) {
    End(i, s) <= |ts| && ts[i..End(i, s)] == Spell(s)
  }

  // ---------------------------------------------------------------- the parts of an expression

  lemma StandsPair(ts: seq<Token>, i: nat, s: Syntax, x: Syntax, y: Syntax, op: Token)
    requires (op == AndToken && s == Both(x, y)) || (op == OrToken && s == Either(x, y))
    ensures Stands(ts, i, s) <==> Stands(ts, i, x) && At(ts, End(i, x), op) && Stands(ts, End(i, x) + 1, y)
    ensures End(End(i, x) + 1, y) == End(i, s)
  {
    Halves(ts, i, Spell(x), op, Spell(y));
  }

  lemma SameParts(a: seq<Token>, c: Token, b: seq<Token>, x: seq<Token>, d: Token, y: seq<Token>)
    requires |a| == |x|
    ensures a + [c] + b == x + [d] + y <==> a == x && c == d && b == y
  {
    var s, t := a + [c] + b, x + [d] + y;
    assert s[..|a|] == a && s[|a|] == c && s[|a| + 1..] == b;
    assert t[..|x|] == x && t[|x|] == d && t[|x| + 1..] == y;
  }

  lemma Halves(ts: seq<Token>, i: nat, x: seq<Token>, op: Token, y: seq<Token>)
    ensures i + |x + [op] + y| <= |ts| && ts[i..i + |x + [op] + y|] == x + [op] + y
       <==> && i + |x| <= |ts| && ts[i..i + |x|] == x && At(ts, i + |x|, op)
            && i + |x| + 1 + |y| <= |ts| && ts[i + |x| + 1..i + |x| + 1 + |y|] == y
  {
    var j, k := i + |x|, i + |x| + 1 + |y|;
    if k <= |ts| {
      assert ts[i..k] == ts[i..j] + [ts[j]] + ts[j + 1..k];
      SameParts(ts[i..j], ts[j], ts[j + 1..k], x, op, y);
    }
  }

  lemma StandsNegated(ts: seq<Token>, i: nat, x: Syntax)
    ensures Stands(ts, i, Negated(x)) <==> At(ts, i, NotToken) && Stands(ts, i + 1, x)
  {
    var j := i + 1 + |Spell(x)|;
    if j <= |ts| {
      assert ts[i..j] == [] + [ts[i]] + ts[i + 1..j] && Spell(Negated(x)) == [] + [NotToken] + Spell(x);
      SameParts([], ts[i], ts[i + 1..j], [], NotToken, Spell(x));
    }
  }

  lemma StandsParens(ts: seq<Token>, i: nat, x: Syntax)
    ensures Stands(ts, i, Parens(x)) <==> At(ts, i, Open) && Stands(ts, i + 1, x) && At(ts, End(i + 1, x), Close)
  {
    var j := i + 1 + |Spell(x)|;
    if j < |ts| {
      assert ts[i..j + 1] == [] + [ts[i]] + (ts[i + 1..j] + [ts[j]]);
      assert Spell(Parens(x)) == [] + [Open] + (Spell(x) + [Close]);
      SameParts([], ts[i], ts[i + 1..j] + [ts[j]], [], Open, Spell(x) + [Close]);
      SameParts(ts[i + 1..j], ts[j], [], Spell(x), Close, []);
      assert ts[i + 1..j] + [ts[j]] + [] == ts[i + 1..j] + [ts[j]] && Spell(x) + [Close] + [] == Spell(x) + [Close];
    }
  }

  lemma StandsWord(ts: seq<Token>, i: nat, name: string)
    ensures Stands(ts, i, Word(name)) <==> At(ts, i, Name(name))
  {
    if i < |ts| {
      assert ts[i..i + 1] == [ts[i]];
    }
  }

  // ---------------------------------------------------------------- what is grammatical is read

  lemma {:induction false} PrimaryRead(ts: seq<Token>, i: nat, s: Syntax, depth: nat, limit: nat)
    requires Stands(ts, i, s) && Primary(s) && Grammatical(s, depth, limit)
    ensures ParsePrimary(ts, i, depth, limit) == Some((Meaning(s), End(i, s)))
    decreases s, 0
  {
    match s
    case Word(name) => StandsWord(ts, i, name);
    case Parens(x) =>
      StandsParens(ts, i, x);
      OrRead(ts, i + 1, x, depth + 1, limit);
      assert OrLoop(ts, Meaning(x), End(i + 1, x), depth + 1, limit) == Some((Meaning(x), End(i + 1, x)));
  }

  function Core(s: Syntax): (r: Syntax)
    requires Unary(s)
    ensures !r.Negated?
  {
    if s.Negated? && Unary(s.operand) then Core(s.operand) else if s.Negated? then Word("") else s
  }

  /** The negations of an operand, and what they are applied to. */
  lemma {:induction false} UnaryParts(ts: seq<Token>, i: nat, s: Syntax, depth: nat, limit: nat)
    requires Stands(ts, i, s) && Unary(s) && Grammatical(s, depth, limit)
    ensures var core := Core(s);
            && Primary(core) && Grammatical(core, depth, limit) && (core == s || core < s)
            && NotRun(ts, i) == Nots(s) <= limit
            && Stands(ts, i + Nots(s), core) && End(i + Nots(s), core) == End(i, s)
            && Negate(Nots(s), Meaning(core)) == Meaning(s)
    decreases s
  {
    match s
    case Negated(x) =>
      StandsNegated(ts, i, x);
      UnaryParts(ts, i + 1, x, depth, limit);
    case Word(name) => StandsWord(ts, i, name);
    case Parens(x) => StandsParens(ts, i, x);
  }

  lemma {:induction false} UnaryRead(ts: seq<Token>, i: nat, s: Syntax, depth: nat, limit: nat)
    requires Stands(ts, i, s) && Unary(s) && Grammatical(s, depth, limit)
    ensures ParseUnary(ts, i, depth, limit) == Some((Meaning(s), End(i, s)))
    decreases s, 1
  {
    UnaryParts(ts, i, s, depth, limit);
    PrimaryRead(ts, i + Nots(s), Core(s), depth, limit);
  }

  lemma {:induction false} AndRead(ts: seq<Token>, i: nat, s: Syntax, depth: nat, limit: nat)
    requires Stands(ts, i, s) && Conjunction(s) && Grammatical(s, depth, limit)
    ensures ParseAnd(ts, i, depth, limit) == AndLoop(ts, Meaning(s), End(i, s), depth, limit)
    decreases s, 2
  {
    if s.Both? {
      StandsPair(ts, i, s, s.left, s.right, AndToken);
      AndRead(ts, i, s.left, depth, limit);
      UnaryRead(ts, End(i, s.left) + 1, s.right, depth, limit);
    } else {
      UnaryRead(ts, i, s, depth, limit);
    }
  }

  lemma {:induction false} OrRead(ts: seq<Token>, i: nat, s: Syntax, depth: nat, limit: nat)
    requires Stands(ts, i, s) && Grammatical(s, depth, limit) && !At(ts, End(i, s), AndToken)
    ensures ParseOr(ts, i, depth, limit) == OrLoop(ts, Meaning(s), End(i, s), depth, limit)
    decreases s, 3
  {
    if s.Either? {
      StandsPair(ts, i, s, s.left, s.right, OrToken);
      OrRead(ts, i, s.left, depth, limit);
      AndRead(ts, End(i, s.left) + 1, s.right, depth, limit);
    } else {
      AndRead(ts, i, s, depth, limit);
    }
  }

  // ---------------------------------------------------------------- what is read is grammatical

  /** The expression `s` accounts for what was read from `i` on. */
  ghost predicate Accounts(ts: seq<Token>, i: nat, s: Syntax, r: Parsed, depth: nat, limit: nat) {
    Grammatical(s, depth, limit) && Stands(ts, i, s) && r == Some((Meaning(s), End(i, s)))
  }

  lemma {:induction false} PrimaryFrom(ts: seq<Token>, i: nat, depth: nat, limit: nat) returns (s: Syntax)
    requires ParsePrimary(ts, i, depth, limit).Some?
    ensures Primary(s) && Accounts(ts, i, s, ParsePrimary(ts, i, depth, limit), depth, limit)
    decreases |ts| - i, 0
  {
    if ts[i].Name? {
      s := Word(ts[i].value);
      StandsWord(ts, i, ts[i].value);
    } else {
      var inner := OrFrom(ts, i + 1, depth + 1, limit);
      s := Parens(inner);
      StandsParens(ts, i, inner);
    }
  }

  lemma {:induction false} NegatedFrom(ts: seq<Token>, i: nat, n: nat, core: Syntax, depth: nat, limit: nat)
    returns (s: Syntax)
    requires n == NotRun(ts, i) <= limit && Primary(core)
    requires Grammatical(core, depth, limit) && Stands(ts, i + n, core)
    ensures Unary(s) && Nots(s) == n && Grammatical(s, depth, limit) && Stands(ts, i, s)
    ensures End(i, s) == End(i + n, core) && Meaning(s) == Negate(n, Meaning(core))
    decreases n
  {
    if n == 0 {
      s := core;
    } else {
      var x := NegatedFrom(ts, i + 1, n - 1, core, depth, limit);
      s := Negated(x);
      StandsNegated(ts, i, x);
    }
  }

  lemma {:induction false} UnaryFrom(ts: seq<Token>, i: nat, depth: nat, limit: nat) returns (s: Syntax)
    requires ParseUnary(ts, i, depth, limit).Some?
    ensures Unary(s) && Accounts(ts, i, s, ParseUnary(ts, i, depth, limit), depth, limit)
    decreases |ts| - i, 1
  {
    var n := NotRun(ts, i);
    var core := PrimaryFrom(ts, i + n, depth, limit);
    s := NegatedFrom(ts, i, n, core, depth, limit);
  }

  lemma {:induction false} AndLoopFrom(ts: seq<Token>, i: nat, left: Syntax, depth: nat, limit: nat)
    returns (s: Syntax)
    requires Conjunction(left) && Grammatical(left, depth, limit) && Stands(ts, i, left)
    requires AndLoop(ts, Meaning(left), End(i, left), depth, limit).Some?
    ensures Conjunction(s) && Accounts(ts, i, s, AndLoop(ts, Meaning(left), End(i, left), depth, limit), depth, limit)
    decreases |ts| - End(i, left), 2
  {
    var j := End(i, left);
    if At(ts, j, AndToken) {
      var right := UnaryFrom(ts, j + 1, depth, limit);
      StandsPair(ts, i, Both(left, right), left, right, AndToken);
      s := AndLoopFrom(ts, i, Both(left, right), depth, limit);
    } else {
      s := left;
    }
  }

  lemma {:induction false} AndFrom(ts: seq<Token>, i: nat, depth: nat, limit: nat) returns (s: Syntax)
    requires ParseAnd(ts, i, depth, limit).Some?
    ensures Conjunction(s) && Accounts(ts, i, s, ParseAnd(ts, i, depth, limit), depth, limit)
    decreases |ts| - i, 3
  {
    var left := UnaryFrom(ts, i, depth, limit);
    s := AndLoopFrom(ts, i, left, depth, limit);
  }

  lemma {:induction false} OrLoopFrom(ts: seq<Token>, i: nat, left: Syntax, depth: nat, limit: nat)
    returns (s: Syntax)
    requires Grammatical(left, depth, limit) && Stands(ts, i, left)
    requires OrLoop(ts, Meaning(left), End(i, left), depth, limit).Some?
    ensures Accounts(ts, i, s, OrLoop(ts, Meaning(left), End(i, left), depth, limit), depth, limit)
    decreases |ts| - End(i, left), 4
  {
    var j := End(i, left);
    if At(ts, j, OrToken) {
      var right := AndFrom(ts, j + 1, depth, limit);
      StandsPair(ts, i, Either(left, right), left, right, OrToken);
      s := OrLoopFrom(ts, i, Either(left, right), depth, limit);
    } else {
      s := left;
    }
  }

  lemma {:induction false} OrFrom(ts: seq<Token>, i: nat, depth: nat, limit: nat) returns (s: Syntax)
    requires ParseOr(ts, i, depth, limit).Some?
    ensures Accounts(ts, i, s, ParseOr(ts, i, depth, limit), depth, limit)
    decreases |ts| - i, 5
  {
    var left := AndFrom(ts, i, depth, limit);
    s := OrLoopFrom(ts, i, left, depth, limit);
  }

  /** The parser reads exactly the grammatical token sequences, each as what it means. */
  lemma ParsesGrammar(ts: seq<Token>, node: Node, limit: nat)
    ensures ParseOr(ts, 0, 0, limit) == Some((node, |ts|))
       <==> exists s :: Grammatical(s, 0, limit) && Spell(s) == ts && Meaning(s) == node
  {
    if ParseOr(ts, 0, 0, limit) == Some((node, |ts|)) {
      var s := OrFrom(ts, 0, 0, limit);
      assert ts[0..End(0, s)] == ts;
    }
    if s :| Grammatical(s, 0, limit) && Spell(s) == ts && Meaning(s) == node {
      GrammarRead(ts, s, limit);
    }
  }

  lemma GrammarRead(ts: seq<Token>, s: Syntax, limit: nat)
    requires Grammatical(s, 0, limit) && Spell(s) == ts
    ensures ParseOr(ts, 0, 0, limit) == Some((Meaning(s), |ts|))
  {
    assert ts[0..End(0, s)] == ts;
    OrRead(ts, 0, s, 0, limit);
  }

  // ---------------------------------------------------------------- the lexer

  function TokenText(t: Token): string {
    match t
    case Name(value) => value
    case NotToken => "!"
    case AndToken => "&&"
    case OrToken => "||"
    case Open => "("
    case Close => ")"
  }

  /** The token and what follows it; an identifier is as long as it can be. */
  predicate TokenFirst(a: Alphabet, text: string, t: Token, rest: string) {
    && text == TokenText(t) + rest
    && (t.Name? ==> IsName(a, t.value) && (rest == "" || !a.part(rest[0])))
  }

  ghost predicate WrittenFirst(a: Alphabet, text: string, pad: string, t: Token, rest: string) {
    Spaces(pad) && |pad| <= |text| && text[..|pad|] == pad && TokenFirst(a, text[|pad|..], t, rest)
  }

  /** The text is the tokens one after the other, with any white space between them. */
  ghost predicate Written(a: Alphabet, text: string, ts: seq<Token>)
    decreases |ts|
  {
    if ts == [] then Spaces(text)
    else exists pad, rest :: WrittenFirst(a, text, pad, ts[0], rest) && Written(a, rest, ts[1..])
  }

  /** What the lexer does at a character that is no white space. */
  lemma LexToken(a: Alphabet, text: string, t: Token, rest: string)
    requires OperatorFree(a) && TokenFirst(a, text, t, rest)
    ensures text != "" && !IsSpace(text[0]) && Tokenize(a, text) == Prepend([t], Tokenize(a, rest))
  {
    match t
    case Name(value) => LexName(a, value, rest);
    case AndToken => LexDouble(a, '&', rest);
    case OrToken => LexDouble(a, '|', rest);
    case NotToken => LexOne(a, '!', rest);
    case Open => LexOne(a, '(', rest);
    case Close => LexOne(a, ')', rest);
  }

  lemma LexFirst(a: Alphabet, text: string) returns (t: Token, rest: string)
    requires OperatorFree(a) && text != "" && !IsSpace(text[0]) && Tokenize(a, text).Some?
    ensures TokenFirst(a, text, t, rest) && Tokenize(a, rest).Some? && |rest| < |text|
    ensures Tokenize(a, text).value == [t] + Tokenize(a, rest).value
  {
    t, rest := FirstOf(a, text);
    LexToken(a, text, t, rest);
  }

  lemma FirstOf(a: Alphabet, text: string) returns (t: Token, rest: string)
    requires OperatorFree(a) && text != "" && !IsSpace(text[0]) && Tokenize(a, text).Some?
    ensures TokenFirst(a, text, t, rest) && |rest| < |text|
  {
    if "&&" <= text {
      t, rest := AndToken, text[2..];
    } else if "||" <= text {
      t, rest := OrToken, text[2..];
    } else if text[0] == '!' {
      t, rest := NotToken, text[1..];
    } else if text[0] == '(' {
      t, rest := Open, text[1..];
    } else if text[0] == ')' {
      t, rest := Close, text[1..];
    } else {
      t, rest := FirstName(a, text);
    }
  }

  lemma FirstName(a: Alphabet, text: string) returns (t: Token, rest: string)
    requires OperatorFree(a) && text != "" && a.start(text[0])
    ensures TokenFirst(a, text, t, rest) && |rest| < |text|
  {
    var n := 1 + PartRun(a, text[1..]);
    t, rest := Name(text[..n]), text[n..];
    assert forall i | 0 < i < n :: text[i] == text[1..][i - 1];
    assert rest != "" ==> rest[0] == text[1..][n - 1];
  }

  lemma {:induction false} LexSpaces(a: Alphabet, pad: string, text: string)
    requires Spaces(pad)
    ensures Tokenize(a, pad + text) == Tokenize(a, text)
  {
    if pad == "" {
      assert pad + text == text;
    } else {
      assert (pad + text)[1..] == pad[1..] + text;
      LexSpaces(a, pad[1..], text);
    }
  }

  function LeadingSpaces(text: string): (n: nat)
    ensures n <= |text| && Spaces(text[..n]) && (n < |text| ==> !IsSpace(text[n]))
  {
    if text == "" || !IsSpace(text[0]) then 0
    else
      var n := 1 + LeadingSpaces(text[1..]);
      assert text[..n] == [text[0]] + text[1..][..n - 1];
      n
  }

  lemma {:induction false} LexedIsWritten(a: Alphabet, text: string)
    requires OperatorFree(a) && Tokenize(a, text).Some?
    ensures Written(a, text, Tokenize(a, text).value)
    decreases |text|
  {
    var n := LeadingSpaces(text);
    var pad, after := text[..n], text[n..];
    assert text == pad + after;
    LexSpaces(a, pad, after);
    if after == "" {
      assert text == pad;
    } else {
      var t, rest := LexFirst(a, after);
      LexedIsWritten(a, rest);
      WrittenMore(a, text, pad, t, rest, Tokenize(a, rest).value);
    }
  }

  lemma WrittenMore(a: Alphabet, text: string, pad: string, t: Token, rest: string, ts: seq<Token>)
    requires WrittenFirst(a, text, pad, t, rest) && Written(a, rest, ts)
    ensures Written(a, text, [t] + ts)
  {
    var all := [t] + ts;
    assert all[1..] == ts;
    assert WrittenFirst(a, text, pad, all[0], rest) && Written(a, rest, all[1..]);
  }

  lemma {:induction false} WrittenIsLexed(a: Alphabet, text: string, ts: seq<Token>)
    requires OperatorFree(a) && Written(a, text, ts)
    ensures Tokenize(a, text) == Some(ts)
    decreases |ts|
  {
    if ts == [] {
      LexSpaces(a, text, "");
      assert text + "" == text;
    } else {
      var pad, rest :| WrittenFirst(a, text, pad, ts[0], rest) && Written(a, rest, ts[1..]);
      WrittenIsLexed(a, rest, ts[1..]);
      LexWritten(a, text, pad, ts[0], rest);
      assert ts == [ts[0]] + ts[1..];
    }
  }

  lemma LexWritten(a: Alphabet, text: string, pad: string, t: Token, rest: string)
    requires OperatorFree(a) && WrittenFirst(a, text, pad, t, rest)
    ensures Tokenize(a, text) == Prepend([t], Tokenize(a, rest))
  {
    var after := text[|pad|..];
    assert text == pad + after;
    LexSpaces(a, pad, after);
    LexToken(a, after, t, rest);
  }

  /** The lexer reads a text as tokens exactly when it is these tokens. */
  lemma LexesWritten(a: Alphabet, text: string, ts: seq<Token>)
    requires OperatorFree(a)
    ensures Tokenize(a, text) == Some(ts) <==> Written(a, text, ts)
  {
    if Tokenize(a, text) == Some(ts) {
      LexedIsWritten(a, text);
    }
    if Written(a, text, ts) {
      WrittenIsLexed(a, text, ts);
    }
  }

  ghost predicate Writes(a: Alphabet, text: string, s: Syntax, node: Node, limit: nat) {
    Grammatical(s, 0, limit) && Written(a, text, Spell(s)) && Meaning(s) == node
  }

  lemma ReadsWritten(a: Alphabet, text: string, node: Node, limit: nat)
    requires OperatorFree(a)
    ensures ParseWhen(a, text, limit) == Some(node) <==> exists s :: Writes(a, text, s, node, limit)
  {
    var tokens := Tokenize(a, text);
    if ParseWhen(a, text, limit) == Some(node) {
      ParsesGrammar(tokens.value, node, limit);
      var s :| Grammatical(s, 0, limit) && Spell(s) == tokens.value && Meaning(s) == node;
      LexesWritten(a, text, Spell(s));
      assert Writes(a, text, s, node, limit);
    }
    if s :| Writes(a, text, s, node, limit) {
      LexesWritten(a, text, Spell(s));
      GrammarRead(Spell(s), s, limit);
    }
  }

  /** A when text is read as a tree exactly when it is a grammatical way to write the tree,
      of identifiers `[A-Za-z_][A-Za-z0-9_.-]*` and with at most 64 parentheses around
      anything and 64 negations in a row. */
  lemma WhenMeans(text: string, node: Node)
    ensures ParseWhen(Strict(), text, MAX_WHEN_EXPRESSION_DEPTH) == Some(node)
       <==> exists s :: Writes(Strict(), text, s, node, 64)
  {
    Alphabets();
    ReadsWritten(Strict(), text, node, 64);
  }
}
