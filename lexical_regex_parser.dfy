/**
 * The recursive-descent regular-expression parser (`RegexParser`). It reads
 * the pattern through the cursor `pos` and calls the Thompson constructors as
 * it recognises each construct:
 *
 *   expression -> term ('|' term)*
 *   term       -> factor*            (stops at the end, '|' or ')')
 *   factor     -> atom ('*' | '+')?
 *   atom       -> '(' expression ')' | '[' items ']' | '\' char | char
 *
 * The pure functions `Expr`, `Term`, `Factor`, `Atom` and `Bracket` give the
 * syntax tree each parsing method recognises, the cursor it stops at, or the
 * error it raises. `Built` gives the automaton Thompson's construction makes
 * for a tree. The methods are proved to follow the grammar functions and to
 * build exactly `Built` of the tree they recognise.
 */
module RegexParser {
  import opened Wrappers
  import opened StateFactory
  import opened Nfa
  import opened Thompson

  /** The constructs of a pattern, one per Thompson constructor the parser calls. */
  datatype Regex =
    | Epsilon                        // construct_simple("", "")
    | Lit(c: char)                   // construct_char
    | CharRange(lo: char, hi: char)  // construct_range
    | Cat(left: Regex, right: Regex) // construct_concat
    | Alt(left: Regex, right: Regex) // construct_union
    | Star(body: Regex)              // construct_star
    | Plus(body: Regex)              // construct_plus

  /** What `parse` raises. */
  datatype ParseError =
    | MissingParen(at: int)  // "Missing closing parenthesis at {pos}"
    | UnclosedClass          // "Unclosed character class"
    | InvalidRange           // "Invalid range in character class"
    | DanglingEscape         // a backslash at the end of the pattern: IndexError
    | NoFragment             // `[]` (no fragment) under '*', '+' or after a factor: AttributeError on None

  /** The symbols of the fragment built for `t`. */
  function Alphabet(t: Regex): set<char>
  {
    match t
    case Epsilon => {}
    case Lit(c) => {c}
    case CharRange(lo, hi) => CharsBetween(lo as int, hi as int)
    case Cat(l, r) => Alphabet(l) + Alphabet(r)
    case Alt(l, r) => Alphabet(l) + Alphabet(r)
    case Star(b) => Alphabet(b)
    case Plus(b) => Alphabet(b)
  }

  // ---------------------------------------------------------------------------
  // The grammar as functions of the pattern `r` and the cursor `p`.

  /** `_parse_expression`: terms separated by '|', combined from the left. */
  function Expr(r: string, p: int): (res: Result<(Regex, int), ParseError>)
    requires 0 <= p <= |r|
    ensures res.Ok? ==> p <= res.value.1 <= |r|
    decreases |r| - p, 5
  {
    match Term(r, p)
    case Err(e) => Err(e)
    case Ok((t, q)) => ExprLoop(r, q, t)
  }

  function ExprLoop(r: string, p: int, acc: Regex): (res: Result<(Regex, int), ParseError>)
    requires 0 <= p <= |r|
    ensures res.Ok? ==> p <= res.value.1 <= |r|
    decreases |r| - p, 4
  {
    if p < |r| && r[p] == '|' then
      match Term(r, p + 1)
      case Err(e) => Err(e)
      case Ok((t, q)) => ExprLoop(r, q, Alt(acc, t))
    else Ok((acc, p))
  }

  /** `_parse_term`: factors concatenated from the left; no factor at all gives the empty-word fragment. */
  function Term(r: string, p: int): (res: Result<(Regex, int), ParseError>)
    requires 0 <= p <= |r|
    ensures res.Ok? ==> p <= res.value.1 <= |r|
    decreases |r| - p, 3
  {
    match TermLoop(r, p, None)
    case Err(e) => Err(e)
    case Ok((acc, q)) => Ok((if acc.Some? then acc.value else Epsilon, q))
  }

  /** The factor loop of `_parse_term`, `acc` being the fragment so far (None before the first one). */
  function TermLoop(r: string, p: int, acc: Option<Regex>): (res: Result<(Option<Regex>, int), ParseError>)
    requires 0 <= p <= |r|
    ensures res.Ok? ==> p <= res.value.1 <= |r|
    decreases |r| - p, 2
  {
    if p == |r| || r[p] == '|' || r[p] == ')' then Ok((acc, p))
    else
      match Factor(r, p)
      case Err(e) => Err(e)
      case Ok((x, q)) =>
        if acc.None? then TermLoop(r, q, x)
        else if x.None? then Err(NoFragment)
        else TermLoop(r, q, Some(Cat(acc.value, x.value)))
  }

  /** `_parse_factor`: an atom and at most one postfix operator. */
  function Factor(r: string, p: int): (res: Result<(Option<Regex>, int), ParseError>)
    requires 0 <= p < |r|
    ensures res.Ok? ==> p < res.value.1 <= |r|
    decreases |r| - p, 1
  {
    match Atom(r, p)
    case Err(e) => Err(e)
    case Ok((x, q)) =>
      if q < |r| && r[q] == '*' then (if x.None? then Err(NoFragment) else Ok((Some(Star(x.value)), q + 1)))
      else if q < |r| && r[q] == '+' then (if x.None? then Err(NoFragment) else Ok((Some(Plus(x.value)), q + 1)))
      else Ok((x, q))
  }

  /** `_parse_atom`: a parenthesised expression, a bracket class, an escaped or a plain character. */
  function Atom(r: string, p: int): (res: Result<(Option<Regex>, int), ParseError>)
    requires 0 <= p < |r|
    ensures res.Ok? ==> p < res.value.1 <= |r|
    decreases |r| - p, 0
  {
    if r[p] == '(' then
      match Expr(r, p + 1)
      case Err(e) => Err(e)
      case Ok((t, q)) => if q < |r| && r[q] == ')' then Ok((Some(t), q + 1)) else Err(MissingParen(q))
    else if r[p] == '[' then Bracket(r, p + 1, None)
    else if r[p] == '\\' then
      if p + 1 < |r| then Ok((Some(Lit(r[p + 1])), p + 2)) else Err(DanglingEscape)
    else Ok((Some(Lit(r[p])), p + 1))
  }

  /** One item of a bracket class: `a-b` or a single character. */
  function Item(r: string, p: int): (res: Result<(Regex, int), ParseError>)
    requires 0 <= p < |r|
    ensures res.Ok? ==> p < res.value.1 <= |r|
  {
    if p + 1 < |r| && r[p + 1] == '-' then
      if p + 2 >= |r| then Err(InvalidRange) else Ok((CharRange(r[p], r[p + 2]), p + 3))
    else Ok((Lit(r[p]), p + 1))
  }

  /** `_parse_bracket` after the '[': items combined by union from the left, up to ']'. */
  function Bracket(r: string, p: int, acc: Option<Regex>): (res: Result<(Option<Regex>, int), ParseError>)
    requires 0 <= p <= |r|
    ensures res.Ok? ==> p < res.value.1 <= |r|
    decreases |r| - p
  {
    if p < |r| && r[p] == ']' then Ok((acc, p + 1))
    else if p >= |r| then Err(UnclosedClass)
    else
      match Item(r, p)
      case Err(e) => Err(e)
      case Ok((part, q)) => Bracket(r, q, Some(if acc.None? then part else Alt(acc.value, part)))
  }

  // ---------------------------------------------------------------------------
  // What the grammar promises.

  /** An expression stops only at the end of the pattern or at a ')'. */
  lemma {:induction false} ExprStops(r: string, p: int)
    requires 0 <= p <= |r| && Expr(r, p).Ok?
    ensures var q := Expr(r, p).value.1; q == |r| || r[q] == ')'
  {
    var t := Term(r, p);
    TermStops(r, p, None);
    ExprLoopStops(r, t.value.1, t.value.0);
  }

  lemma {:induction false} ExprLoopStops(r: string, p: int, acc: Regex)
    requires 0 <= p <= |r| && ExprLoop(r, p, acc).Ok?
    requires p == |r| || r[p] == '|' || r[p] == ')'
    ensures var q := ExprLoop(r, p, acc).value.1; q == |r| || r[q] == ')'
    decreases |r| - p
  {
    if p < |r| && r[p] == '|' {
      var t := Term(r, p + 1);
      TermStops(r, p + 1, None);
      ExprLoopStops(r, t.value.1, Alt(acc, t.value.0));
    }
  }

  /** A term stops only at the end of the pattern, at a '|' or at a ')'. */
  lemma {:induction false} TermStops(r: string, p: int, acc: Option<Regex>)
    requires 0 <= p <= |r| && TermLoop(r, p, acc).Ok?
    ensures var q := TermLoop(r, p, acc).value.1; q == |r| || r[q] == '|' || r[q] == ')'
    decreases |r| - p
  {
    if !(p == |r| || r[p] == '|' || r[p] == ')') {
      var x := Factor(r, p);
      if acc.None? {
        TermStops(r, x.value.1, x.value.0);
      } else {
        TermStops(r, x.value.1, Some(Cat(acc.value, x.value.0.value)));
      }
    }
  }

  /**
   * A '(' whose expression parses is reported unmatched only when the
   * pattern runs out: the expression stops at the end or at a ')', which is
   * then consumed.
   */
  lemma MissingParenAtEnd(r: string, p: int)
    requires 0 <= p < |r| && r[p] == '(' && Expr(r, p + 1).Ok? && Atom(r, p).Err?
    ensures Atom(r, p) == Err(MissingParen(|r|))
  {
    ExprStops(r, p + 1);
  }

  /** A bracket class that parses ends with the ']' just before the cursor. */
  lemma {:induction false} BracketCloses(r: string, p: int, acc: Option<Regex>)
    requires 0 <= p <= |r| && Bracket(r, p, acc).Ok?
    ensures var q := Bracket(r, p, acc).value.1; r[q - 1] == ']'
    decreases |r| - p
  {
    if !(p < |r| && r[p] == ']') {
      var (part, q) := Item(r, p).value;
      BracketCloses(r, q, Some(if acc.None? then part else Alt(acc.value, part)));
    }
  }

  /** A bracket class yields no fragment exactly when it is empty: `[]`. */
  lemma {:induction false} BracketEmpty(r: string, p: int, acc: Option<Regex>)
    requires 0 <= p <= |r| && Bracket(r, p, acc).Ok?
    ensures Bracket(r, p, acc).value.0.None? <==> acc.None? && r[p] == ']'
    decreases |r| - p
  {
    if !(p < |r| && r[p] == ']') {
      var (part, q) := Item(r, p).value;
      BracketSome(r, q, Some(if acc.None? then part else Alt(acc.value, part)));
    }
  }

  /** Once a bracket item is read, the class yields a fragment. */
  lemma {:induction false} BracketSome(r: string, p: int, acc: Option<Regex>)
    requires 0 <= p <= |r| && Bracket(r, p, acc).Ok? && acc.Some?
    ensures Bracket(r, p, acc).value.0.Some?
    decreases |r| - p
  {
    if !(p < |r| && r[p] == ']') {
      var (part, q) := Item(r, p).value;
      BracketSome(r, q, Some(Alt(acc.value, part)));
    }
  }

  // ---------------------------------------------------------------------------
  // The parser object.

  /** Every state a fragment mentions is below `c`, the counter of the factory. */
  ghost predicate Below(n: Nfa, c: int)
    reads n
  {
    && (forall id :: id in n.states ==> 0 <= id < c)
    && (forall id :: id in n.accepts ==> 0 <= id < c)
    && (n.start.Some? ==> 0 <= n.start.value < c)
  }

  /** `n` is a fragment for the tree `t` built from the first `c` states. */
  ghost predicate Fragment(n: Nfa, c: int, t: Regex)
    reads n
  {
    n.start.Some? && Below(n, c) && WellFormed(n) && n.alphabet == Alphabet(t)
  }

  /** With the ids handed out being 0 .. counter-1, "issued" means "below the counter". */
  lemma IssuedBelow(f: StateFactory, n: Nfa)
    requires f.Valid()
    ensures Issued(f, n) <==> Below(n, f.counter)
  {
    assert forall id :: id in f.records <==> 0 <= id < f.counter;
  }

  /** A fragment stays a fragment as the counter grows. */
  lemma FragmentGrows(n: Nfa, c: int, c': int, t: Regex)
    requires Fragment(n, c, t) && c <= c'
    ensures Fragment(n, c', t)
  {
  }

  // ---------------------------------------------------------------------------
  // The automaton Thompson's construction gives a tree.

  /** The parts of a fragment its construction fixes: states, symbols, edges, start and accepts. */
  datatype Shape = Shape(states: set<int>, alphabet: set<char>, transitions: Transitions, start: int, accepts: set<int>)

  function ShapeOf(n: Nfa): Shape
    requires n.start.Some?
    reads n
  {
    Shape(n.states, n.alphabet, n.transitions, n.start.value, n.accepts)
  }

  /** `construct_union` on fragments `a` and `b`, its two new states being `s` and `s + 1`. */
  function UnionShape(a: Shape, b: Shape, s: int): Shape
  {
    Shape(a.states + b.states + a.accepts + b.accepts + {s, s + 1, a.start, b.start},
          a.alphabet + b.alphabet,
          LinkAll((a.transitions + b.transitions)[(s, None) := {a.start, b.start}], a.accepts + b.accepts, {s + 1}),
          s, {s + 1})
  }

  /** `construct_concat` on fragments `a` and `b`: no new state. */
  function ConcatShape(a: Shape, b: Shape): Shape
  {
    Shape(a.states + b.states + a.accepts + (if a.accepts == {} then {} else {b.start}),
          a.alphabet + b.alphabet,
          LinkAll(a.transitions + b.transitions, a.accepts, {b.start}),
          a.start, b.accepts)
  }

  /** `construct_star` on fragment `a`, its two new states being `s` and `s + 1`. */
  function StarShape(a: Shape, s: int): Shape
  {
    Shape(a.states + a.accepts + {s, s + 1, a.start}, a.alphabet,
          StarTransitions(a.transitions, a.accepts, a.start, s, s + 1), s, {s + 1})
  }

  /** `construct_plus` on fragment `a`, its two new states being `s` and `s + 1`. */
  function PlusShape(a: Shape, s: int): Shape
  {
    Shape(a.states + a.accepts + {s, s + 1, a.start}, a.alphabet,
          PlusTransitions(a.transitions, a.accepts, a.start, s, s + 1), s, {s + 1})
  }

  /**
   * The fragment the parser builds for `t` when the factory's counter is `c`
   * at the start, and the counter after it. The parts are built in the order
   * the parser meets them: the left operand, then the right one, then the
   * node's own new states.
   */
  function Built(t: Regex, c: int): (Shape, int)
  {
    match t
    case Epsilon => (Shape({}, {}, map[], c, {c}), c + 1)
    case Lit(x) => (Shape({c, c + 1}, {x}, map[(c, Some(x)) := {c + 1}], c, {c + 1}), c + 2)
    case CharRange(lo, hi) =>
      var chars := CharsBetween(lo as int, hi as int);
      (Shape(if chars == {} then {} else {c, c + 1}, chars, RangeEdges(c, c + 1, lo as int, hi as int), c, {c + 1}), c + 2)
    case Cat(l, r) =>
      var (a, c1) := Built(l, c);
      var (b, c2) := Built(r, c1);
      (ConcatShape(a, b), c2)
    case Alt(l, r) =>
      var (a, c1) := Built(l, c);
      var (b, c2) := Built(r, c1);
      (UnionShape(a, b, c2), c2 + 2)
    case Star(b) =>
      var (a, c1) := Built(b, c);
      (StarShape(a, c1), c1 + 2)
    case Plus(b) =>
      var (a, c1) := Built(b, c);
      (PlusShape(a, c1), c1 + 2)
  }

  /** The symbols of the fragment built for a tree are those of the tree. */
  lemma {:induction false} BuiltAlphabet(t: Regex, c: int)
    ensures Built(t, c).0.alphabet == Alphabet(t)
    ensures Built(t, c).1 > c
  {
    match t
    case Epsilon =>
    case Lit(_) =>
    case CharRange(_, _) =>
    case Cat(l, r) =>
      BuiltAlphabet(l, c);
      BuiltAlphabet(r, Built(l, c).1);
    case Alt(l, r) =>
      BuiltAlphabet(l, c);
      BuiltAlphabet(r, Built(l, c).1);
    case Star(b) =>
      BuiltAlphabet(b, c);
    case Plus(b) =>
      BuiltAlphabet(b, c);
  }

  /** `n` is exactly the fragment built for `t` from counter `c0`, the counter being `c` after it. */
  ghost predicate Exact(n: Nfa, t: Regex, c0: int, c: int)
    reads n
  {
    n.start.Some? && ShapeOf(n) == Built(t, c0).0 && Built(t, c0).1 == c
  }

  /** The fields `construct_union` gives `nfa` are those of `UnionShape`. */
  lemma UnionFields(n1: Nfa, n2: Nfa, nfa: Nfa, s: int)
    requires n1.start.Some? && n2.start.Some?
    requires nfa.start == Some(s) && nfa.accepts == {s + 1}
    requires nfa.alphabet == n1.alphabet + n2.alphabet
    requires nfa.transitions == LinkAll((n1.transitions + n2.transitions)[(s, None) := {n1.start.value, n2.start.value}],
                                        n1.accepts + n2.accepts, {s + 1})
    requires nfa.states == n1.states + n2.states + n1.accepts + n2.accepts
                           + {s, s + 1, n1.start.value, n2.start.value}
    ensures ShapeOf(nfa) == UnionShape(ShapeOf(n1), ShapeOf(n2), s)
  {
    var a, b := ShapeOf(n1), ShapeOf(n2);
    assert ShapeOf(nfa).states == UnionShape(a, b, s).states;
    assert ShapeOf(nfa).transitions == UnionShape(a, b, s).transitions;
  }

  /** The fields `construct_concat` gives `nfa` are those of `ConcatShape`. */
  lemma ConcatFields(n1: Nfa, n2: Nfa, nfa: Nfa)
    requires n1.start.Some? && n2.start.Some?
    requires nfa.start == n1.start && nfa.accepts == n2.accepts
    requires nfa.alphabet == n1.alphabet + n2.alphabet
    requires nfa.transitions == LinkAll(n1.transitions + n2.transitions, n1.accepts, {n2.start.value})
    requires nfa.states == n1.states + n2.states + n1.accepts
                           + (if n1.accepts == {} then {} else {n2.start.value})
    ensures ShapeOf(nfa) == ConcatShape(ShapeOf(n1), ShapeOf(n2))
  {
    var a, b := ShapeOf(n1), ShapeOf(n2);
    assert ShapeOf(nfa).states == ConcatShape(a, b).states;
    assert ShapeOf(nfa).transitions == ConcatShape(a, b).transitions;
  }

  /** The union of the fragments of `t1` and `t2`, built one after the other, is the fragment of `Alt(t1, t2)`. */
  lemma AltExact(n1: Nfa, n2: Nfa, nfa: Nfa, t1: Regex, t2: Regex, c0: int, c1: int, s: int)
    requires Exact(n1, t1, c0, c1) && Exact(n2, t2, c1, s)
    requires nfa.start.Some? && ShapeOf(nfa) == UnionShape(ShapeOf(n1), ShapeOf(n2), s)
    ensures Exact(nfa, Alt(t1, t2), c0, s + 2)
  {
    assert Built(Alt(t1, t2), c0) == (UnionShape(ShapeOf(n1), ShapeOf(n2), s), s + 2);
  }

  /** The concatenation of the fragments of `t1` and `t2`, built one after the other, is the fragment of `Cat(t1, t2)`. */
  lemma CatExact(n1: Nfa, n2: Nfa, nfa: Nfa, t1: Regex, t2: Regex, c0: int, c1: int, s: int)
    requires Exact(n1, t1, c0, c1) && Exact(n2, t2, c1, s)
    requires nfa.start.Some? && ShapeOf(nfa) == ConcatShape(ShapeOf(n1), ShapeOf(n2))
    ensures Exact(nfa, Cat(t1, t2), c0, s)
  {
    assert Built(Cat(t1, t2), c0) == (ConcatShape(ShapeOf(n1), ShapeOf(n2)), s);
  }

  // The Thompson constructors as the parser uses them: each builds exactly the fragment of its tree.

  method UnionOf(f: StateFactory, n1: Nfa, n2: Nfa, ghost t1: Regex, ghost t2: Regex) returns (nfa: Nfa)
    requires f.Valid() && Fragment(n1, f.counter, t1) && Fragment(n2, f.counter, t2)
    modifies f
    ensures f.Valid() && f.counter == old(f.counter) + 2 && fresh(nfa) && Fragment(nfa, f.counter, Alt(t1, t2))
    ensures ShapeOf(nfa) == UnionShape(ShapeOf(n1), ShapeOf(n2), old(f.counter))
  {
    IssuedBelow(f, n1);
    IssuedBelow(f, n2);
    ghost var s := f.counter;
    nfa := ConstructUnion(f, n1, n2);
    IssuedBelow(f, nfa);
    UnionFields(n1, n2, nfa, s);
  }

  method ConcatOf(f: StateFactory, n1: Nfa, n2: Nfa, ghost t1: Regex, ghost t2: Regex) returns (nfa: Nfa)
    requires f.Valid() && Fragment(n1, f.counter, t1) && Fragment(n2, f.counter, t2)
    modifies f
    ensures f.Valid() && f.counter == old(f.counter) && fresh(nfa) && Fragment(nfa, f.counter, Cat(t1, t2))
    ensures ShapeOf(nfa) == ConcatShape(ShapeOf(n1), ShapeOf(n2))
  {
    IssuedBelow(f, n1);
    IssuedBelow(f, n2);
    nfa := ConstructConcat(f, n1, n2);
    IssuedBelow(f, nfa);
    ConcatFields(n1, n2, nfa);
  }

  /** `n1` built from counter `c0` on: its star is the fragment of `Star(t1)`. */
  method StarOf(f: StateFactory, n1: Nfa, ghost t1: Regex, ghost c0: int) returns (nfa: Nfa)
    requires f.Valid() && Fragment(n1, f.counter, t1) && Exact(n1, t1, c0, f.counter)
    modifies f
    ensures f.Valid() && f.counter >= old(f.counter) && fresh(nfa) && Fragment(nfa, f.counter, Star(t1))
    ensures Exact(nfa, Star(t1), c0, f.counter)
  {
    IssuedBelow(f, n1);
    ghost var s := f.counter;
    nfa := ConstructStar(f, n1);
    IssuedBelow(f, nfa);
    assert ShapeOf(nfa) == StarShape(ShapeOf(n1), s);
  }

  /** As `StarOf`, for `Plus(t1)`. */
  method PlusOf(f: StateFactory, n1: Nfa, ghost t1: Regex, ghost c0: int) returns (nfa: Nfa)
    requires f.Valid() && Fragment(n1, f.counter, t1) && Exact(n1, t1, c0, f.counter)
    modifies f
    ensures f.Valid() && f.counter >= old(f.counter) && fresh(nfa) && Fragment(nfa, f.counter, Plus(t1))
    ensures Exact(nfa, Plus(t1), c0, f.counter)
  {
    IssuedBelow(f, n1);
    ghost var s := f.counter;
    nfa := ConstructPlus(f, n1);
    IssuedBelow(f, nfa);
    assert ShapeOf(nfa) == PlusShape(ShapeOf(n1), s);
  }

  method CharOf(f: StateFactory, c: char) returns (nfa: Nfa)
    requires f.Valid()
    modifies f
    ensures f.Valid() && f.counter >= old(f.counter) && fresh(nfa) && Fragment(nfa, f.counter, Lit(c))
    ensures Exact(nfa, Lit(c), old(f.counter), f.counter)
  {
    nfa := ConstructChar(f, c);
    IssuedBelow(f, nfa);
  }

  method RangeOf(f: StateFactory, a: char, b: char) returns (nfa: Nfa)
    requires f.Valid()
    modifies f
    ensures f.Valid() && f.counter >= old(f.counter) && fresh(nfa) && Fragment(nfa, f.counter, CharRange(a, b))
    ensures Exact(nfa, CharRange(a, b), old(f.counter), f.counter)
  {
    nfa := ConstructRange(f, a, b);
    IssuedBelow(f, nfa);
  }

  method EmptyWord(f: StateFactory) returns (nfa: Nfa)
    requires f.Valid()
    modifies f
    ensures f.Valid() && f.counter >= old(f.counter) && fresh(nfa) && Fragment(nfa, f.counter, Epsilon)
    ensures Exact(nfa, Epsilon, old(f.counter), f.counter)
  {
    nfa := ConstructSimple(f, "", "");
    IssuedBelow(f, nfa);
  }

  /**
   * The parse of one construct agrees with its grammar function, and the
   * fragment built is exactly the one for the tree, numbered from `c0` on.
   */
  ghost predicate Follows(spec: Result<(Regex, int), ParseError>, res: Result<Nfa, ParseError>, pos: int, c0: int, c: int)
    reads if res.Ok? then {res.value} else {}
  {
    match spec
    case Err(e) => res == Err(e)
    case Ok((t, q)) => res.Ok? && pos == q && Fragment(res.value, c, t) && Exact(res.value, t, c0, c)
  }

  /** As `Follows`, for the constructs that may yield no fragment (`[]`, which uses no state). */
  ghost predicate FollowsOpt(spec: Result<(Option<Regex>, int), ParseError>, res: Result<Nfa?, ParseError>, pos: int, c0: int, c: int)
    reads if res.Ok? && res.value != null then {res.value} else {}
  {
    match spec
    case Err(e) => res == Err(e)
    case Ok((x, q)) =>
      && res.Ok? && pos == q && (x.None? <==> res.value == null)
      && (x.None? ==> c == c0)
      && (x.Some? ==> Fragment(res.value, c, x.value) && Exact(res.value, x.value, c0, c))
  }

  class RegexParser {
    const factory: StateFactory
    var pos: int
    var regex: string

    constructor (factory: StateFactory)
      ensures this.factory == factory && pos == 0 && regex == ""
    {
      this.factory := factory;
      pos := 0;
      regex := "";
    }

    /**
     * `parse`: parses the whole pattern from the start and builds the Thompson
     * fragment of its tree; with a non-empty tag, every accept state gets it.
     */
    method Parse(regex: string, tag: Option<string>) returns (res: Result<Nfa, ParseError>)
      requires factory.Valid()
      modifies this, factory
      ensures factory.Valid() && this.regex == regex
      ensures Follows(Expr(regex, 0), res, pos, old(factory.counter), factory.counter)
      ensures res.Ok? && tag.Some? && tag.value != "" ==>
                forall id :: id in res.value.accepts ==> factory.records[id].tag == tag
    {
      this.regex := regex;
      pos := 0;
      res := ParseExpression();
      if res.Ok? && tag.Some? && tag.value != "" {
        var nfa := res.value;
        IssuedBelow(factory, nfa);
        ghost var records0 := factory.records;
        TagAll(factory, nfa.accepts, tag.value);
        RetagSpec(records0, nfa.accepts, tag.value);
      }
    }

    function Peek(): string
      reads this
    {
      if 0 <= pos < |regex| then [regex[pos]] else ""
    }

    method Match(c: char) returns (matched: bool)
      modifies this
      ensures regex == old(regex)
      ensures matched == (old(Peek()) == [c]) && pos == if matched then old(pos) + 1 else old(pos)
    {
      matched := Peek() == [c];
      if matched {
        pos := pos + 1;
      }
    }

    method ParseExpression() returns (res: Result<Nfa, ParseError>)
      requires factory.Valid() && 0 <= pos <= |regex|
      modifies this, factory
      ensures regex == old(regex) && factory.Valid() && factory.counter >= old(factory.counter)
      ensures Follows(Expr(regex, old(pos)), res, pos, old(factory.counter), factory.counter)
      decreases |regex| - pos, 5
    {
      ghost var p0, c0 := pos, factory.counter;
      var first := ParseTerm();
      if first.Err? {
        return Err(first.error);
      }
      var nfa := first.value;
      ghost var acc := Term(regex, p0).value.0;
      while true
        invariant regex == old(regex) && factory.Valid() && factory.counter >= old(factory.counter)
        invariant p0 <= pos <= |regex|
        invariant Fragment(nfa, factory.counter, acc) && Exact(nfa, acc, c0, factory.counter)
        invariant Expr(regex, p0) == ExprLoop(regex, pos, acc)
        decreases |regex| - pos
      {
        var more := Match('|');
        if !more {
          break;
        }
        ghost var p, c := pos, factory.counter;
        var next := ParseTerm();
        if next.Err? {
          return Err(next.error);
        }
        ghost var t, n1, s := Term(regex, p).value.0, nfa, factory.counter;
        FragmentGrows(nfa, c, factory.counter, acc);
        nfa := UnionOf(factory, nfa, next.value, acc, t);
        AltExact(n1, next.value, nfa, acc, t, c0, c, s);
        acc := Alt(acc, t);
      }
      return Ok(nfa);
    }

    method ParseTerm() returns (res: Result<Nfa, ParseError>)
      requires factory.Valid() && 0 <= pos <= |regex|
      modifies this, factory
      ensures regex == old(regex) && factory.Valid() && factory.counter >= old(factory.counter)
      ensures Follows(Term(regex, old(pos)), res, pos, old(factory.counter), factory.counter)
      decreases |regex| - pos, 3
    {
      ghost var p0, c0 := pos, factory.counter;
      var nfa: Nfa? := null;
      ghost var acc: Option<Regex> := None;
      while true
        invariant regex == old(regex) && factory.Valid() && factory.counter >= old(factory.counter)
        invariant p0 <= pos <= |regex|
        invariant acc.None? <==> nfa == null
        invariant acc.None? ==> factory.counter == c0
        invariant acc.Some? ==> Fragment(nfa, factory.counter, acc.value) && Exact(nfa, acc.value, c0, factory.counter)
        invariant TermLoop(regex, p0, None) == TermLoop(regex, pos, acc)
        decreases |regex| - pos
      {
        var c := Peek();
        if c == "" || c == "|" || c == ")" {
          break;
        }
        ghost var p, n := pos, factory.counter;
        var next := ParseFactor();
        if next.Err? {
          return Err(next.error);
        }
        ghost var x := Factor(regex, p).value.0;
        if nfa == null {
          nfa := next.value;
          acc := x;
        } else if next.value == null {
          return Err(NoFragment);
        } else {
          ghost var n1 := nfa;
          FragmentGrows(nfa, n, factory.counter, acc.value);
          nfa := ConcatOf(factory, nfa, next.value, acc.value, x.value);
          CatExact(n1, next.value, nfa, acc.value, x.value, c0, n, factory.counter);
          acc := Some(Cat(acc.value, x.value));
        }
      }
      if nfa != null {
        return Ok(nfa);
      }
      var empty := EmptyWord(factory);
      return Ok(empty);
    }

    method ParseFactor() returns (res: Result<Nfa?, ParseError>)
      requires factory.Valid() && 0 <= pos < |regex|
      modifies this, factory
      ensures regex == old(regex) && factory.Valid() && factory.counter >= old(factory.counter)
      ensures FollowsOpt(Factor(regex, old(pos)), res, pos, old(factory.counter), factory.counter)
      decreases |regex| - pos, 1
    {
      ghost var x, c0 := Atom(regex, pos), factory.counter;
      res := ParseAtom();
      if res.Err? {
        return;
      }
      var nfa := res.value;
      var star := Match('*');
      if star {
        if nfa == null {
          return Err(NoFragment);
        }
        nfa := StarOf(factory, nfa, x.value.0.value, c0);
        return Ok(nfa);
      }
      var plus := Match('+');
      if plus {
        if nfa == null {
          return Err(NoFragment);
        }
        nfa := PlusOf(factory, nfa, x.value.0.value, c0);
        return Ok(nfa);
      }
    }

    method ParseAtom() returns (res: Result<Nfa?, ParseError>)
      requires factory.Valid() && 0 <= pos < |regex|
      modifies this, factory
      ensures regex == old(regex) && factory.Valid() && factory.counter >= old(factory.counter)
      ensures FollowsOpt(Atom(regex, old(pos)), res, pos, old(factory.counter), factory.counter)
      decreases |regex| - pos, 0
    {
      var c := Peek();
      var open := Match('(');
      if open {
        var inner := ParseExpression();
        if inner.Err? {
          return Err(inner.error);
        }
        var close := Match(')');
        if !close {
          return Err(MissingParen(pos));
        }
        return Ok(inner.value);
      }
      if Peek() == "[" {
        res := ParseBracket();
        return;
      }
      pos := pos + 1;
      if c == "\\" {
        if pos >= |regex| {
          return Err(DanglingEscape);
        }
        c := [regex[pos]];
        pos := pos + 1;
      }
      var nfa := CharOf(factory, c[0]);
      return Ok(nfa);
    }

    method ParseBracket() returns (res: Result<Nfa?, ParseError>)
      requires factory.Valid() && 0 <= pos < |regex| && regex[pos] == '['
      modifies this, factory
      ensures regex == old(regex) && factory.Valid() && factory.counter >= old(factory.counter)
      ensures FollowsOpt(Bracket(regex, old(pos) + 1, None), res, pos, old(factory.counter), factory.counter)
    {
      var _ := Match('[');
      ghost var p0, c0 := pos, factory.counter;
      var nfa: Nfa? := null;
      ghost var acc: Option<Regex> := None;
      while Peek() != "]"
        invariant regex == old(regex) && factory.Valid() && factory.counter >= old(factory.counter)
        invariant p0 <= pos <= |regex|
        invariant acc.None? <==> nfa == null
        invariant acc.None? ==> factory.counter == c0
        invariant acc.Some? ==> Fragment(nfa, factory.counter, acc.value) && Exact(nfa, acc.value, c0, factory.counter)
        invariant Bracket(regex, p0, None) == Bracket(regex, pos, acc)
        decreases |regex| - pos
      {
        if pos >= |regex| {
          return Err(UnclosedClass);
        }
        ghost var n := factory.counter;
        ghost var p := pos;
        var next := ParseItem();
        if next.Err? {
          return Err(next.error);
        }
        ghost var item := Item(regex, p).value.0;
        var part := next.value;
        if nfa == null {
          nfa := part;
          acc := Some(item);
        } else {
          ghost var n1, s := nfa, factory.counter;
          FragmentGrows(nfa, n, factory.counter, acc.value);
          nfa := UnionOf(factory, nfa, part, acc.value, item);
          AltExact(n1, part, nfa, acc.value, item, c0, n, s);
          acc := Some(Alt(acc.value, item));
        }
      }
      var _ := Match(']');
      return Ok(nfa);
    }

    /** One bracket item: a character, or `a-b` for the range from `a` to `b`. */
    method ParseItem() returns (res: Result<Nfa, ParseError>)
      requires factory.Valid() && 0 <= pos < |regex|
      modifies this, factory
      ensures regex == old(regex) && factory.Valid() && factory.counter >= old(factory.counter)
      ensures Follows(Item(regex, old(pos)), res, pos, old(factory.counter), factory.counter)
    {
      var start := regex[pos];
      pos := pos + 1;
      var part;
      if Peek() == "-" {
        pos := pos + 1;
        if pos >= |regex| {
          return Err(InvalidRange);
        }
        var end := regex[pos];
        pos := pos + 1;
        part := RangeOf(factory, start, end);
      } else {
        part := CharOf(factory, start);
      }
      return Ok(part);
    }
  }
}
