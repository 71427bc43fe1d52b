/**
 * The table-driven LR parser (`driver/lr_parser.py`). A state stack, a
 * symbol stack and a history are updated by shift, reduce and goto steps
 * read from the ACTION and GOTO tables, with an optional semantic callback
 * run on every reduction.
 *
 * The pure functions `Step` and `Run` say what one iteration and a whole
 * run of the parse loop do; the class `LRParser` is the object of the
 * source, and its `Parse` loop is proved to end exactly as `Run` says.
 */
module LrParser {
  import opened Wrappers
  import opened Grammar
  import opened Table
  import opened Symbols

  /** An input token `(token_type, token_value)`. */
  datatype Token<V> = Token(kind: string, value: Option<V>)

  /** An entry of `parse_history`. */
  datatype Entry = ShiftEntry(step: nat, state: int, symbol: string)
                 | ReduceEntry(step: nat, production: string, goto: int)
  {
    /** The entry's `'action'` key. */
    function Action(): string
    {
      if ShiftEntry? then "shift" else "reduce"
    }
  }

  /** How `parse` ends: True, False, an exception, or (in the model only) out of fuel. */
  datatype Outcome = Accepted | Rejected | Raised | OutOfFuel

  /** The optional semantic callback, applied to a production and the popped symbols. */
  type Handler<!V> = Option<(Production, seq<Symbol<V>>) -> Option<V>>

  /** The parser's stacks and history. */
  datatype Stacks<V> = Stacks(states: seq<int>, symbols: seq<Symbol<V>>, history: seq<Entry>)
  {
    /** The stack invariant: one state more than symbols, for the bottom state. */
    predicate Wf()
    {
      |states| == |symbols| + 1
    }
  }

  /** The loop state: the stacks, the input position and the step counter. */
  datatype Config<V> = Config(stacks: Stacks<V>, index: nat, step: nat)

  /** The input `tokens + [('$', None)]`. */
  function Input<V>(tokens: seq<Token<V>>): (r: seq<Token<V>>)
    ensures |r| == |tokens| + 1 && r[..|tokens|] == tokens && r[|tokens|] == Token(EndMarker, None)
  {
    tokens + [Token(EndMarker, None)]
  }

  /** The start of `parse`: state stack `[0]`, nothing else, at the first token. */
  function Initial<V>(): (c: Config<V>)
    ensures c.stacks.Wf() && c.stacks.states == [0] && c.index == 0 && c.stacks.history == []
  {
    Config(Stacks([0], [], []), 0, 0)
  }

  /** `productions[id]` with Python's indexing: negative ids count from the end, others raise. */
  function ProductionAt(ps: seq<Production>, id: int): (r: Option<Production>)
    ensures r.Some? <==> -|ps| <= id < |ps|
    ensures 0 <= id < |ps| ==> r == Some(ps[id])
    ensures -|ps| <= id < 0 ==> r == Some(ps[|ps| + id])
  {
    if 0 <= id < |ps| then Some(ps[id]) else if -|ps| <= id < 0 then Some(ps[|ps| + id]) else None
  }

  /** How many pairs a reduction by `p` pops: the length of the right side, but none for `ε`. */
  function PopCount(p: Production): (n: nat)
    ensures n == 0 <==> p.right == [] || p.right == [Epsilon]
    ensures n <= |p.right|
  {
    if p.right == [Epsilon] then 0 else |p.right|
  }

  /**
   * `_handle_semantic_action`: the callback's result when there is one,
   * otherwise the value of the first popped symbol, otherwise None.
   */
  function SemanticValue<V>(h: Handler<V>, p: Production, popped: seq<Symbol<V>>): (r: Option<V>)
    ensures h.None? && popped != [] ==> r == popped[0].value
    ensures h.None? && popped == [] ==> r == None
    ensures h.Some? ==> r == h.value(p, popped)
  {
    match h
    case Some(f) => f(p, popped)
    case None => if popped != [] then popped[0].value else None
  }

  /** `_handle_shift`: push the target state and the token as a symbol, and record the shift. */
  function Pushed<V>(s: Stacks<V>, state: int, token: Token<V>, step: nat): (r: Stacks<V>)
    ensures s.Wf() ==> r.Wf()
  {
    Stacks(s.states + [state], s.symbols + [Make(token.kind, token.value)], s.history + [ShiftEntry(step, state, token.kind)])
  }

  /** How a reduction ends: continuing, failing on a missing GOTO, or raising. */
  datatype Reduction<V> = Reduced(after: Stacks<V>) | NoGoto(after: Stacks<V>) | Crashed(after: Stacks<V>)

  /**
   * `_handle_reduce` by production `id` at step `step`. An id that does not
   * index the productions raises before anything changes; popping more
   * symbols than there are raises after emptying both stacks; otherwise the
   * popped symbols go to the semantic step in their original order, and the
   * GOTO entry of the exposed state on the left side is pushed with a symbol
   * for the left side, or the parse fails with the pairs already popped.
   */
  function ReduceBy<V>(ps: seq<Production>, gt: map<Key, int>, h: Handler<V>, s: Stacks<V>, id: int, step: nat)
    : (r: Reduction<V>)
    requires s.Wf()
    ensures ProductionAt(ps, id).None? ==> r == Crashed(s)
    ensures ProductionAt(ps, id).Some? && PopCount(ProductionAt(ps, id).value) > |s.symbols| ==>
              r == Crashed(Stacks([], [], s.history))
    ensures r.NoGoto? ==> r.after.Wf() && r.after.history == s.history
    ensures r.Reduced? ==> r.after.Wf() && |r.after.history| == |s.history| + 1
  {
    match ProductionAt(ps, id)
    case None => Crashed(s)
    case Some(p) =>
      var n := PopCount(p);
      if n > |s.symbols| then Crashed(Stacks([], [], s.history))
      else
        var m := |s.symbols| - n;
        var states, symbols := s.states[..m + 1], s.symbols[..m];
        var value := SemanticValue(h, p, s.symbols[m..]);
        var key := (states[m], p.left);
        if key !in gt then NoGoto(Stacks(states, symbols, s.history))
        else
          Reduced(Stacks(states + [gt[key]], symbols + [Make(p.left, value)],
                         s.history + [ReduceEntry(step, Repr(p), gt[key])]))
  }

  /**
   * A reduction that succeeds popped `PopCount(p)` pairs, kept the stacks
   * below them, and pushed the GOTO state of the exposed state on the left
   * side with a symbol for the left side carrying the semantic value of the
   * popped symbols, and recorded the reduction.
   */
  lemma ReducePushesGoto<V>(ps: seq<Production>, gt: map<Key, int>, h: Handler<V>, s: Stacks<V>, id: int, step: nat)
    requires s.Wf() && ReduceBy(ps, gt, h, s, id, step).Reduced?
    ensures var r := ReduceBy(ps, gt, h, s, id, step);
            var p := ProductionAt(ps, id).value;
            var n := PopCount(p);
            var m := |s.symbols| - n;
            && n <= |s.symbols| && r.after.Wf() && |r.after.symbols| == m + 1
            && r.after.states[..m + 1] == s.states[..m + 1] && r.after.symbols[..m] == s.symbols[..m]
            && (s.states[m], p.left) in gt && r.after.states[m + 1] == gt[(s.states[m], p.left)]
            && r.after.symbols[m] == Make(p.left, SemanticValue(h, p, s.symbols[m..]))
            && r.after.history == s.history + [ReduceEntry(step, Repr(p), gt[(s.states[m], p.left)])]
  {
    var p := ProductionAt(ps, id).value;
    ReduceByGoto(ps, gt, h, s, id, step, p, |s.symbols| - PopCount(p));
  }

  /** A reduction that pops `PopCount(p)` pairs and finds a GOTO entry for the exposed state. */
  lemma ReduceByGoto<V>(ps: seq<Production>, gt: map<Key, int>, h: Handler<V>, s: Stacks<V>, id: int, step: nat,
                        p: Production, m: nat)
    requires s.Wf() && ProductionAt(ps, id) == Some(p) && PopCount(p) <= |s.symbols| && m == |s.symbols| - PopCount(p)
    requires (s.states[m], p.left) in gt
    ensures ReduceBy(ps, gt, h, s, id, step)
            == Reduced(Stacks(s.states[..m + 1] + [gt[(s.states[m], p.left)]],
                              s.symbols[..m] + [Make(p.left, SemanticValue(h, p, s.symbols[m..]))],
                              s.history + [ReduceEntry(step, Repr(p), gt[(s.states[m], p.left)])]))
  {
  }

  /** A reduction that pops `PopCount(p)` pairs and finds no GOTO entry for the exposed state. */
  lemma ReduceByNoGoto<V>(ps: seq<Production>, gt: map<Key, int>, h: Handler<V>, s: Stacks<V>, id: int, step: nat,
                          p: Production, m: nat)
    requires s.Wf() && ProductionAt(ps, id) == Some(p) && PopCount(p) <= |s.symbols| && m == |s.symbols| - PopCount(p)
    requires (s.states[m], p.left) !in gt
    ensures ReduceBy(ps, gt, h, s, id, step) == NoGoto(Stacks(s.states[..m + 1], s.symbols[..m], s.history))
  {
  }

  /** The ACTION table says accept for the top state and the current token. */
  predicate AcceptsHere<V>(at: map<Key, Action>, input: seq<Token<V>>, c: Config<V>)
  {
    && c.stacks.states != [] && c.index < |input|
    && (c.stacks.states[|c.stacks.states| - 1], input[c.index].kind) in at
    && at[(c.stacks.states[|c.stacks.states| - 1], input[c.index].kind)] == Accept
  }

  /** What one iteration of the parse loop leads to. */
  datatype Next<V> = Continue(next: Config<V>) | Halt(outcome: Outcome, last: Config<V>)

  /** How the loop goes on after a reduction at input position `index` in step `step`. */
  function AfterReduce<V>(red: Reduction<V>, index: nat, step: nat): Next<V>
  {
    match red
    case Reduced(after) => Continue(Config(after, index, step))
    case NoGoto(after) => Halt(Rejected, Config(after, index, step))
    case Crashed(after) => Halt(Raised, Config(after, index, step))
  }

  /**
   * One iteration of the parse loop: count the step, read the top state and
   * the current token, and act on the ACTION entry. The stack invariant is
   * kept on every path that does not raise; a shift consumes one token and
   * nothing else does; accept is reached exactly when the table says so.
   */
  function Step<V>(ps: seq<Production>, at: map<Key, Action>, gt: map<Key, int>, h: Handler<V>,
                   input: seq<Token<V>>, c: Config<V>): (r: Next<V>)
    requires c.stacks.Wf()
    ensures r.Continue? ==> r.next.stacks.Wf() && r.next.step == c.step + 1
    ensures r.Continue? ==> r.next.index == c.index || (c.index < |input| && r.next.index == c.index + 1)
    ensures r.Continue? ==> |r.next.stacks.history| == |c.stacks.history| + 1
    ensures r.Halt? ==> r.outcome != OutOfFuel && (r.outcome != Raised ==> r.last.stacks.Wf())
    ensures r.Halt? && r.outcome == Accepted <==> AcceptsHere(at, input, c)
    ensures r.Halt? && r.outcome == Accepted ==> r.last.stacks == c.stacks && r.last.index == c.index
    ensures c.index >= |input| ==> r == Halt(Raised, c.(step := c.step + 1))
  {
    var step := c.step + 1;
    var s := c.stacks;
    if c.index >= |input| then Halt(Raised, c.(step := step))
    else
      var token := input[c.index];
      var key := (s.states[|s.states| - 1], token.kind);
      if key !in at then Halt(Rejected, c.(step := step))
      else
        match at[key]
        case Shift(target) => Continue(Config(Pushed(s, target, token, step), c.index + 1, step))
        case Reduce(id) => AfterReduce(ReduceBy(ps, gt, h, s, id, step), c.index, step)
        case Accept => Halt(Accepted, c.(step := step))
        case Other(_, _) => Halt(Rejected, c.(step := step))
  }

  /** A step on a shift entry pushes and consumes the token. */
  lemma StepOnShift<V>(ps: seq<Production>, at: map<Key, Action>, gt: map<Key, int>, h: Handler<V>,
                       input: seq<Token<V>>, c: Config<V>, target: int, step: nat)
    requires c.stacks.Wf() && c.index < |input| && step == c.step + 1
    requires (c.stacks.states[|c.stacks.states| - 1], input[c.index].kind) in at
    requires at[(c.stacks.states[|c.stacks.states| - 1], input[c.index].kind)] == Shift(target)
    ensures Step(ps, at, gt, h, input, c) == Continue(Config(Pushed(c.stacks, target, input[c.index], step), c.index + 1, step))
  {
  }

  /** A step on a reduce entry continues, fails or raises as the reduction does, at the same input position. */
  lemma StepOnReduce<V>(ps: seq<Production>, at: map<Key, Action>, gt: map<Key, int>, h: Handler<V>,
                        input: seq<Token<V>>, c: Config<V>, id: int, step: nat)
    requires c.stacks.Wf() && c.index < |input| && step == c.step + 1
    requires (c.stacks.states[|c.stacks.states| - 1], input[c.index].kind) in at
    requires at[(c.stacks.states[|c.stacks.states| - 1], input[c.index].kind)] == Reduce(id)
    ensures Step(ps, at, gt, h, input, c) == AfterReduce(ReduceBy(ps, gt, h, c.stacks, id, step), c.index, step)
  {
  }

  /**
   * The loop body reported the outcome `r` of a step: it halted with `r`'s
   * outcome and stacks, or it continues from `r`'s configuration.
   */
  ghost predicate Took<V>(r: Next<V>, halt: Option<Outcome>, s: Stacks<V>, nextIndex: nat, step: nat)
  {
    && (halt.None? <==> r.Continue?)
    && (r.Continue? ==> r.next == Config(s, nextIndex, step))
    && (r.Halt? ==> halt == Some(r.outcome) && s == r.last.stacks)
  }

  /**
   * The parse loop from `c` for at most `fuel` iterations: the outcome and
   * the final loop state. Unless it raised, the stack invariant holds at the
   * end; if it accepted, the ACTION table said accept at the final state.
   */
  function Run<V>(ps: seq<Production>, at: map<Key, Action>, gt: map<Key, int>, h: Handler<V>,
                  input: seq<Token<V>>, c: Config<V>, fuel: nat): (r: (Outcome, Config<V>))
    requires c.stacks.Wf()
    ensures r.0 != Raised ==> r.1.stacks.Wf()
    ensures r.0 == Accepted ==> AcceptsHere(at, input, r.1)
    ensures r.0 == OutOfFuel ==> r.1.index <= |input| || r.1 == c
    decreases fuel
  {
    if fuel == 0 then (OutOfFuel, c)
    else
      match Step(ps, at, gt, h, input, c)
      case Continue(next) => Run(ps, at, gt, h, input, next, fuel - 1)
      case Halt(o, last) => (o, last)
  }

  /** With fuel left, a run goes on from the configuration a continuing step leads to. */
  lemma RunContinues<V>(ps: seq<Production>, at: map<Key, Action>, gt: map<Key, int>, h: Handler<V>,
                        input: seq<Token<V>>, c: Config<V>, next: Config<V>, fuel: nat,
                        result: (Outcome, Config<V>), rest: nat)
    requires c.stacks.Wf() && fuel > 0 && Step(ps, at, gt, h, input, c) == Continue(next)
    requires result == Run(ps, at, gt, h, input, c, fuel) && rest == fuel - 1
    ensures result == Run(ps, at, gt, h, input, next, rest)
  {
  }

  /** With fuel left, a run ends where a halting step ends. */
  lemma RunHalts<V>(ps: seq<Production>, at: map<Key, Action>, gt: map<Key, int>, h: Handler<V>,
                    input: seq<Token<V>>, c: Config<V>, outcome: Outcome, last: Config<V>, fuel: nat)
    requires c.stacks.Wf() && fuel > 0 && Step(ps, at, gt, h, input, c) == Halt(outcome, last)
    ensures Run(ps, at, gt, h, input, c, fuel) == (outcome, last)
  {
  }

  /** More fuel never changes a run that already ended within its fuel. */
  lemma {:induction false} FuelMonotone<V>(ps: seq<Production>, at: map<Key, Action>, gt: map<Key, int>,
                                           h: Handler<V>, input: seq<Token<V>>, c: Config<V>, fuel: nat, more: nat)
    requires c.stacks.Wf()
    requires Run(ps, at, gt, h, input, c, fuel).0 != OutOfFuel
    ensures Run(ps, at, gt, h, input, c, fuel + more) == Run(ps, at, gt, h, input, c, fuel)
    decreases fuel
  {
    match Step(ps, at, gt, h, input, c)
    case Continue(next) =>
      assert Run(ps, at, gt, h, input, c, fuel) == Run(ps, at, gt, h, input, next, fuel - 1);
      FuelMonotone(ps, at, gt, h, input, next, fuel - 1, more);
      assert Run(ps, at, gt, h, input, c, fuel + more) == Run(ps, at, gt, h, input, next, fuel - 1 + more);
    case Halt(outcome, last) =>
      assert Run(ps, at, gt, h, input, c, fuel) == (outcome, last) == Run(ps, at, gt, h, input, c, fuel + more);
  }

  /**
   * When accept is only ever written for the end marker and no token of the
   * input is the end marker, an accepted parse has consumed the whole input:
   * it stops at the appended `$`.
   */
  lemma AcceptConsumesInput<V>(ps: seq<Production>, at: map<Key, Action>, gt: map<Key, int>, h: Handler<V>,
                               tokens: seq<Token<V>>, fuel: nat)
    requires forall k :: k in at && at[k] == Accept ==> k.1 == EndMarker
    requires forall n :: 0 <= n < |tokens| ==> tokens[n].kind != EndMarker
    ensures Run(ps, at, gt, h, Input(tokens), Initial(), fuel).0 == Accepted ==>
              Run(ps, at, gt, h, Input(tokens), Initial(), fuel).1.index == |tokens|
  {
    var r := Run(ps, at, gt, h, Input(tokens), Initial(), fuel);
    if r.0 == Accepted {
      var input := Input(tokens);
      var key := (r.1.stacks.states[|r.1.stacks.states| - 1], input[r.1.index].kind);
      assert key in at && at[key] == Accept;
    }
  }

  /** A reduction by an `ε` production pops nothing: it only pushes the GOTO state and the left side. */
  lemma EpsilonReduction<V>(ps: seq<Production>, gt: map<Key, int>, h: Handler<V>, s: Stacks<V>, id: int, step: nat)
    requires s.Wf() && ProductionAt(ps, id).Some? && ProductionAt(ps, id).value.right == [Epsilon]
    requires ReduceBy(ps, gt, h, s, id, step).Reduced?
    ensures ReduceBy(ps, gt, h, s, id, step).after.states[..|s.states|] == s.states
    ensures ReduceBy(ps, gt, h, s, id, step).after.symbols[..|s.symbols|] == s.symbols
    ensures |ReduceBy(ps, gt, h, s, id, step).after.symbols| == |s.symbols| + 1
  {
  }

  /** The report of `get_parse_tree`. */
  datatype ParseReport = ParseReport(history: seq<Entry>, success: bool)

  /**
   * `LRParser`: the grammar, the tables and the callback, fixed at
   * construction, and the stacks and history of the latest `parse`.
   */
  class LRParser<V> {
    const grammar: Grammar
    const actionTable: map<Key, Action>
    const gotoTable: map<Key, int>
    const semanticHandler: Handler<V>
    var stateStack: seq<int>
    var symbolStack: seq<Symbol<V>>
    var parseHistory: seq<Entry>

    constructor (grammar: Grammar, actionTable: map<Key, Action>, gotoTable: map<Key, int>,
                 semanticHandler: Handler<V>)
      ensures this.grammar == grammar && this.actionTable == actionTable && this.gotoTable == gotoTable
      ensures this.semanticHandler == semanticHandler
      ensures stateStack == [] && symbolStack == [] && parseHistory == []
    {
      this.grammar := grammar;
      this.actionTable := actionTable;
      this.gotoTable := gotoTable;
      this.semanticHandler := semanticHandler;
      stateStack, symbolStack, parseHistory := [], [], [];
    }

    /** The stacks and history as one value. */
    function Current(): Stacks<V>
      reads this
    {
      Stacks(stateStack, symbolStack, parseHistory)
    }

    /** `_handle_shift`. */
    method HandleShift(state: int, token: string, value: Option<V>, step: nat)
      modifies this
      ensures Current() == Pushed(old(Current()), state, Token(token, value), step)
    {
      stateStack := stateStack + [state];
      symbolStack := symbolStack + [Make(token, value)];
      parseHistory := parseHistory + [ShiftEntry(step, state, token)];
    }

    /**
     * The pop loop of `_handle_reduce`: `n` times, one state and then one
     * symbol, the symbols collected in their original order. Running out of
     * symbols raises, with both stacks empty by then.
     */
    method PopPairs(n: nat) returns (reduced: seq<Symbol<V>>, ok: bool)
      requires Current().Wf()
      modifies this
      ensures parseHistory == old(parseHistory)
      ensures ok <==> n <= |old(symbolStack)|
      ensures ok ==> && stateStack == old(stateStack)[..|old(stateStack)| - n]
                     && symbolStack == old(symbolStack)[..|old(symbolStack)| - n]
                     && reduced == old(symbolStack)[|old(symbolStack)| - n..]
      ensures !ok ==> stateStack == [] && symbolStack == []
    {
      reduced := [];
      var k := 0;
      while k < n
        invariant 0 <= k <= n && k <= |old(symbolStack)|
        invariant stateStack == old(stateStack)[..|old(stateStack)| - k]
        invariant symbolStack == old(symbolStack)[..|old(symbolStack)| - k]
        invariant reduced == old(symbolStack)[|old(symbolStack)| - k..]
        invariant parseHistory == old(parseHistory)
      {
        stateStack := stateStack[..|stateStack| - 1];
        if symbolStack == [] {
          return reduced, false;
        }
        reduced := [symbolStack[|symbolStack| - 1]] + reduced;
        symbolStack := symbolStack[..|symbolStack| - 1];
        k := k + 1;
      }
      ok := true;
    }

    /**
     * `_handle_reduce`: pops one state and one symbol at a time, collecting
     * the symbols in their original order, then pushes the GOTO state. The
     * result is None where the source raises, false where it returns False.
     */
    method HandleReduce(prodId: int, step: nat) returns (ok: Option<bool>)
      requires Current().Wf()
      modifies this
      ensures var r := ReduceBy(grammar.productions, gotoTable, semanticHandler, old(Current()), prodId, step);
              && Current() == r.after
              && (ok.None? <==> r.Crashed?) && (ok == Some(false) <==> r.NoGoto?) && (ok == Some(true) <==> r.Reduced?)
    {
      ghost var s0 := Current();
      var p := ProductionAt(grammar.productions, prodId);
      if p.None? {
        return None;
      }
      var production := p.value;
      var betaLength := |production.right|;
      if production.right == [Epsilon] {
        betaLength := 0;
      }
      var reduced, popped := PopPairs(betaLength);
      if !popped {
        return None;
      }
      var value := SemanticValue(semanticHandler, production, reduced);
      var gotoKey := (stateStack[|stateStack| - 1], production.left);
      if gotoKey !in gotoTable {
        ReduceByNoGoto(grammar.productions, gotoTable, semanticHandler, s0, prodId, step, production, |s0.symbols| - betaLength);
        return Some(false);
      }
      var nextState := gotoTable[gotoKey];
      ReduceByGoto(grammar.productions, gotoTable, semanticHandler, s0, prodId, step, production, |s0.symbols| - betaLength);
      stateStack := stateStack + [nextState];
      symbolStack := symbolStack + [Make(production.left, value)];
      parseHistory := parseHistory + [ReduceEntry(step, Repr(production), nextState)];
      return Some(true);
    }

    /** The `reduce` branch of the loop body, by production `id`, as `AfterReduce` says. */
    method ReduceIteration(inputIndex: nat, step: nat, id: int) returns (halt: Option<Outcome>, nextIndex: nat)
      requires Current().Wf()
      modifies this
      ensures Took(AfterReduce(ReduceBy(grammar.productions, gotoTable, semanticHandler, old(Current()), id, step), inputIndex, step),
                   halt, Current(), nextIndex, step)
    {
      nextIndex := inputIndex;
      var ok := HandleReduce(id, step);
      if ok.None? {
        return Some(Raised), nextIndex;
      } else if !ok.value {
        return Some(Rejected), nextIndex;
      }
      return None, nextIndex;
    }

    /**
     * The body of the `parse` loop, as step `step`, at input position
     * `inputIndex`: it ends the parse with an outcome, or continues at the
     * returned position, exactly as `Step` says.
     */
    method Iteration(input: seq<Token<V>>, inputIndex: nat, step: nat, ghost ps: seq<Production>, ghost c: Config<V>)
      returns (halt: Option<Outcome>, nextIndex: nat)
      requires Current().Wf() && step >= 1 && ps == grammar.productions && c == Config(Current(), inputIndex, step - 1)
      modifies this
      ensures Took(Step(ps, actionTable, gotoTable, semanticHandler, input, c), halt, Current(), nextIndex, step)
    {
      nextIndex := inputIndex;
      if inputIndex >= |input| {
        return Some(Raised), nextIndex;
      }
      var currentState := stateStack[|stateStack| - 1];
      var currentToken := input[inputIndex];
      var actionKey := (currentState, currentToken.kind);
      if actionKey !in actionTable {
        return Some(Rejected), nextIndex;
      }
      match actionTable[actionKey]
      case Shift(target) =>
        StepOnShift(ps, actionTable, gotoTable, semanticHandler, input, c, target, step);
        HandleShift(target, currentToken.kind, currentToken.value, step);
        return None, inputIndex + 1;
      case Reduce(id) =>
        StepOnReduce(ps, actionTable, gotoTable, semanticHandler, input, c, id, step);
        halt, nextIndex := ReduceIteration(inputIndex, step, id);
      case Accept =>
        return Some(Accepted), nextIndex;
      case Other(_, _) =>
        return Some(Rejected), nextIndex;
    }

    /**
     * `parse`, for at most `fuel` iterations: the outcome and the final
     * stacks and history are those of `Run` from the start configuration on
     * the tokens followed by `$`.
     */
    method Parse(tokens: seq<Token<V>>, fuel: nat) returns (r: Outcome)
      modifies this
      ensures var result := Run(grammar.productions, actionTable, gotoTable, semanticHandler, Input(tokens), Initial(), fuel);
              r == result.0 && Current() == result.1.stacks
    {
      stateStack, symbolStack, parseHistory := [0], [], [];
      var input := tokens + [Token(EndMarker, None)];
      var inputIndex: nat := 0;
      var step: nat := 0;
      var remaining := fuel;
      ghost var ps := grammar.productions;
      ghost var c := Initial();
      ghost var result := Run(ps, actionTable, gotoTable, semanticHandler, input, c, fuel);
      assert input == Input(tokens);
      while true
        invariant Current().Wf() && ps == grammar.productions
        invariant c == Config(Current(), inputIndex, step)
        invariant result == Run(ps, actionTable, gotoTable, semanticHandler, input, c, remaining)
        decreases remaining
      {
        if remaining == 0 {
          return OutOfFuel;
        }
        ghost var next := Step(ps, actionTable, gotoTable, semanticHandler, input, c);
        ghost var fuelBefore := remaining;
        remaining := remaining - 1;
        step := step + 1;
        var halt;
        halt, inputIndex := Iteration(input, inputIndex, step, ps, c);
        if halt.Some? {
          RunHalts(ps, actionTable, gotoTable, semanticHandler, input, c, next.outcome, next.last, fuelBefore);
          return halt.value;
        }
        RunContinues(ps, actionTable, gotoTable, semanticHandler, input, c, next.next, fuelBefore, result, remaining);
        c := next.next;
      }
    }

    /**
     * `get_parse_tree`: the history, and a success flag that asks whether the
     * last entry is an accept. Only shifts and reductions are ever recorded,
     * so the flag is never set.
     */
    function GetParseTree(): (r: ParseReport)
      reads this
      ensures r.history == parseHistory && !r.success
    {
      ParseReport(parseHistory, |parseHistory| > 0 && parseHistory[|parseHistory| - 1].Action() == "accept")
    }
  }
}
